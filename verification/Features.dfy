/** The active-feature indices of a position, and the few of them a move changes.

    A perspective's features are one index per piece on the board, one per piece
    held, and as many copies of a padding index as it takes to reach forty. */
module Features {
  import opened Wrappers
  import opened Shogi

  const MAX_ACTIVE := 40
  const USIZE_MAX := 0xFFFF_FFFF_FFFF_FFFF
  const BONA_PIECE_ZERO := 0

  const F_HAND_PAWN := 0
  const E_HAND_PAWN := F_HAND_PAWN + 19
  const F_HAND_LANCE := E_HAND_PAWN + 19
  const E_HAND_LANCE := F_HAND_LANCE + 5
  const F_HAND_KNIGHT := E_HAND_LANCE + 5
  const E_HAND_KNIGHT := F_HAND_KNIGHT + 5
  const F_HAND_SILVER := E_HAND_KNIGHT + 5
  const E_HAND_SILVER := F_HAND_SILVER + 5
  const F_HAND_GOLD := E_HAND_SILVER + 5
  const E_HAND_GOLD := F_HAND_GOLD + 5
  const F_HAND_BISHOP := E_HAND_GOLD + 5
  const E_HAND_BISHOP := F_HAND_BISHOP + 3
  const F_HAND_ROOK := E_HAND_BISHOP + 3
  const E_HAND_ROOK := F_HAND_ROOK + 3
  const FE_HAND_END := E_HAND_ROOK + 3

  const F_PAWN := FE_HAND_END
  const E_PAWN := F_PAWN + 81
  const F_LANCE := E_PAWN + 81
  const E_LANCE := F_LANCE + 81
  const F_KNIGHT := E_LANCE + 81
  const E_KNIGHT := F_KNIGHT + 81
  const F_SILVER := E_KNIGHT + 81
  const E_SILVER := F_SILVER + 81
  const F_GOLD := E_SILVER + 81
  const E_GOLD := F_GOLD + 81
  const F_BISHOP := E_GOLD + 81
  const E_BISHOP := F_BISHOP + 81
  const F_HORSE := E_BISHOP + 81
  const E_HORSE := F_HORSE + 81
  const F_ROOK := E_HORSE + 81
  const E_ROOK := F_ROOK + 81
  const F_DRAGON := E_ROOK + 81
  const E_DRAGON := F_DRAGON + 81
  const FE_END := E_DRAGON + 81

  const E_KING := FE_END + SQUARES
  const SQ_K_COUNT := 5 * 9
  const FEATURE_DIMENSION := SQ_K_COUNT * E_KING

  type Feature = nat

  // ----- squares as one side sees them -----

  function File(s: Square): nat {
    s / RANKS
  }

  function FromPersp(s: Square, persp: Color): Square {
    if persp.Black? then s else SQUARES - 1 - s
  }

  predicate NeedsMirror(king: Square) {
    File(king) >= 5
  }

  function MirrorIfNeeded(s: Square, mirror: bool): Square {
    if mirror then (FILES - 1 - s / RANKS) * RANKS + s % RANKS else s
  }

  /** What a perspective's own king fixes: the king code and the mirror flag. */
  datatype View = View(persp: Color, kingCode: nat, mirror: bool)

  function ViewFrom(persp: Color, king: Square): (v: View)
    ensures v.kingCode < SQ_K_COUNT
  {
    var k := FromPersp(king, persp);
    var mirror := NeedsMirror(k);
    View(persp, MirrorIfNeeded(k, mirror), mirror)
  }

  function SquareCode(v: View, s: Square): Square {
    MirrorIfNeeded(FromPersp(s, v.persp), v.mirror)
  }

  // ----- planes -----

  function BoardPlane(kind: Kind, promoted: bool, friend: bool): nat {
    match kind
    case Pawn => if promoted then (if friend then F_GOLD else E_GOLD) else if friend then F_PAWN else E_PAWN
    case Lance => if promoted then (if friend then F_GOLD else E_GOLD) else if friend then F_LANCE else E_LANCE
    case Knight => if promoted then (if friend then F_GOLD else E_GOLD) else if friend then F_KNIGHT else E_KNIGHT
    case Silver => if promoted then (if friend then F_GOLD else E_GOLD) else if friend then F_SILVER else E_SILVER
    case Gold => if friend then F_GOLD else E_GOLD
    case Bishop => if promoted then (if friend then F_HORSE else E_HORSE) else if friend then F_BISHOP else E_BISHOP
    case Rook => if promoted then (if friend then F_DRAGON else E_DRAGON) else if friend then F_ROOK else E_ROOK
    case King => USIZE_MAX
  }

  function HandPlane(kind: Kind, friend: bool): nat {
    match kind
    case Pawn => if friend then F_HAND_PAWN else E_HAND_PAWN
    case Lance => if friend then F_HAND_LANCE else E_HAND_LANCE
    case Knight => if friend then F_HAND_KNIGHT else E_HAND_KNIGHT
    case Silver => if friend then F_HAND_SILVER else E_HAND_SILVER
    case Gold => if friend then F_HAND_GOLD else E_HAND_GOLD
    case Bishop => if friend then F_HAND_BISHOP else E_HAND_BISHOP
    case Rook => if friend then F_HAND_ROOK else E_HAND_ROOK
    case King => USIZE_MAX
  }

  /** Unsigned 64-bit addition as a release build performs it. */
  function WrappingAdd(a: nat, b: nat): nat {
    (a + b) % (USIZE_MAX + 1)
  }

  function EncodeFeature(kingCode: nat, adjusted: nat): Feature {
    E_KING * kingCode + adjusted
  }

  function PieceFeature(v: View, s: Square, piece: Piece): Feature {
    var code := SquareCode(v, s);
    EncodeFeature(v.kingCode,
                  if piece.kind.King? then FE_END + code
                  else WrappingAdd(BoardPlane(piece.kind, piece.promoted, piece.color == v.persp), code))
  }

  function HandFeature(v: View, color: Color, kind: Kind, count: nat): Feature {
    EncodeFeature(v.kingCode, WrappingAdd(HandPlane(kind, color == v.persp), count))
  }

  function Padding(v: View): Feature {
    EncodeFeature(v.kingCode, BONA_PIECE_ZERO)
  }

  // ----- the full list -----

  function CellFeatures(v: View, s: Square, c: Cell): seq<Feature> {
    match c
    case None => []
    case Some(piece) => [PieceFeature(v, s, piece)]
  }

  function BoardFeatures(v: View, b: seq<Cell>): seq<Feature>
    requires |b| <= SQUARES
  {
    if b == [] then [] else BoardFeatures(v, b[..|b| - 1]) + CellFeatures(v, |b| - 1, b[|b| - 1])
  }

  /** The features of `count` held pieces of one kind: slots 1 to `count`. */
  function SlotFeatures(v: View, color: Color, kind: Kind, count: nat): (r: seq<Feature>)
    ensures |r| == count
  {
    if count == 0 then [] else SlotFeatures(v, color, kind, count - 1) + [HandFeature(v, color, kind, count)]
  }

  /** The kinds a hand can hold, in plane order. */
  function HandKind(n: nat): (k: Kind)
    requires n < HAND_KINDS
    ensures !k.King? && k.Index() == n
  {
    match n
    case 0 => Pawn
    case 1 => Lance
    case 2 => Knight
    case 3 => Silver
    case 4 => Gold
    case 5 => Bishop
    case _ => Rook
  }

  function HandFeatures(v: View, color: Color, h: seq<nat>): seq<Feature>
    requires |h| <= HAND_KINDS
  {
    if h == [] then []
    else HandFeatures(v, color, h[..|h| - 1]) + SlotFeatures(v, color, HandKind(|h| - 1), h[|h| - 1])
  }

  /** The features of the pieces themselves, in scan order. */
  function RealFeatures(v: View, p: Position): seq<Feature> {
    BoardFeatures(v, p.board)
    + HandFeatures(v, Black, p.black) + HandFeatures(v, White, p.white)
  }

  function Pad(v: View, n: nat): (r: seq<Feature>)
    ensures |r| == n && forall i :: 0 <= i < n ==> r[i] == Padding(v)
  {
    seq(n, i => Padding(v))
  }

  function ActiveIn(v: View, p: Position): seq<Feature> {
    var pieces := RealFeatures(v, p);
    pieces + Pad(v, if |pieces| < MAX_ACTIVE then MAX_ACTIVE - |pieces| else 0)
  }

  function ActiveFeatures(p: Position, persp: Color): seq<Feature>
    requires KingSquare(p, persp).Some?
  {
    ActiveIn(ViewFrom(persp, KingSquare(p, persp).value), p)
  }

  /** The k-th piece of a kind lands on slot k. */
  method PushSlot(list: seq<Feature>, v: View, color: Color, k: Kind, count: nat) returns (r: seq<Feature>)
    ensures r == list + SlotFeatures(v, color, k, count)
  {
    hide HandFeature;
    r := list;
    for i := 0 to count
      invariant r == list + SlotFeatures(v, color, k, i)
    {
      r := r + [HandFeature(v, color, k, i + 1)];
    }
  }

  lemma NoHandFeatures(v: View, color: Color)
    ensures HandFeatures(v, color, []) == []
  {}

  lemma HandFeaturesNext(v: View, color: Color, hand: Hand, n: nat)
    requires n < HAND_KINDS
    ensures HandFeatures(v, color, hand[..n + 1])
         == HandFeatures(v, color, hand[..n]) + SlotFeatures(v, color, HandKind(n), hand[n])
  {
    assert hand[..n + 1][..n] == hand[..n];
  }

  /** Appends the features of one hand. */
  method PushHand(list: seq<Feature>, v: View, color: Color, hand: Hand) returns (r: seq<Feature>)
    ensures r == list + HandFeatures(v, color, hand)
  {
    hide HandFeatures;
    r := list;
    NoHandFeatures(v, color);
    for n := 0 to HAND_KINDS
      invariant r == list + HandFeatures(v, color, hand[..n])
    {
      HandFeaturesNext(v, color, hand, n);
      r := PushSlot(r, v, color, HandKind(n), hand[n]);
    }
    assert hand[..HAND_KINDS] == hand;
  }

  /** The scan itself: 81 squares, then both hands, then the padding. */
  method ActiveFeaturesInto(p: Position, persp: Color) returns (list: seq<Feature>)
    requires KingSquare(p, persp).Some?
    ensures list == ActiveFeatures(p, persp)
  {
    list := [];
    var v := ViewFrom(persp, KingSquare(p, persp).value);
    for index := 0 to SQUARES
      invariant list == BoardFeatures(v, p.board[..index])
    {
      assert p.board[..index + 1][..index] == p.board[..index];
      match p.board[index]
      case None =>
      case Some(piece) => list := list + [PieceFeature(v, index, piece)];
    }
    assert p.board[..SQUARES] == p.board;
    list := PushHand(list, v, Black, p.black);
    list := PushHand(list, v, White, p.white);
    ghost var pieces := list;
    while |list| < MAX_ACTIVE
      invariant |pieces| <= |list|
      invariant |list| <= MAX_ACTIVE || list == pieces
      invariant list == pieces + Pad(v, |list| - |pieces|)
    {
      list := list + [Padding(v)];
    }
  }
}
