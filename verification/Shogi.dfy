/** The board primitives the evaluator and the search rest on: a board of 81
    cells, two capped hands, and playing or taking back one move.  Playing a move
    keeps every piece kind's population, and taking it back restores the position
    because no hand ever reaches the cap at which `Increment` stops counting. */
module Shogi {
  import opened Wrappers

  const SQUARES := 81
  const FILES := 9
  const RANKS := 9
  const HAND_KINDS := 7

  datatype Color = Black | White {
    function Flip(): Color {
      if Black? then White else Black
    }
  }

  datatype Kind = Pawn | Lance | Knight | Silver | Gold | Bishop | Rook | King {
    function Index(): (i: nat)
      ensures i < 8
      ensures King? <==> i == HAND_KINDS
    {
      match this
      case Pawn => 0
      case Lance => 1
      case Knight => 2
      case Silver => 3
      case Gold => 4
      case Bishop => 5
      case Rook => 6
      case King => 7
    }

    /** How many pieces of this kind a set holds; the cap of a hand slot. */
    function Population(): nat {
      match this
      case Pawn => 18
      case Lance => 4
      case Knight => 4
      case Silver => 4
      case Gold => 4
      case Bishop => 2
      case Rook => 2
      case King => 2
    }
  }

  datatype Piece = Piece(kind: Kind, color: Color, promoted: bool)

  type Square = s: nat | s < SQUARES
  type Cell = Option<Piece>
  type Board = b: seq<Cell> | |b| == SQUARES witness seq(SQUARES, i => None)
  type Hand = h: seq<nat> | |h| == HAND_KINDS witness seq(HAND_KINDS, i => 0)

  datatype Position = Position(board: Board, black: Hand, white: Hand, stm: Color) {
    function HandOf(c: Color): Hand {
      if c.Black? then black else white
    }

    function WithHand(c: Color, h: Hand): Position {
      if c.Black? then this.(black := h) else this.(white := h)
    }
  }

  /** A board move carries the piece standing on `to` afterwards, as the packed
      encoding does. */
  datatype Move =
    | Drop(kind: Kind, to: Square)
    | Board(from: Square, to: Square, after: Piece, promote: bool)

  function HandCount(h: Hand, k: Kind): nat {
    if k.King? then 0 else h[k.Index()]
  }

  /** Adds one piece unless the slot is full; a king has no slot. */
  function Increment(h: Hand, k: Kind): Hand {
    if k.King? || h[k.Index()] >= k.Population() then h else h[k.Index() := h[k.Index()] + 1]
  }

  function Decrement(h: Hand, k: Kind): Hand {
    if k.King? || h[k.Index()] == 0 then h else h[k.Index() := h[k.Index()] - 1]
  }

  /** The mover as it stood on `from`. */
  function Before(m: Move): Piece
    requires m.Board?
  {
    if m.promote then m.after.(promoted := false) else m.after
  }

  function Captured(p: Position, m: Move): Cell {
    if m.Drop? then None else p.board[m.to]
  }

  function DoMove(p: Position, m: Move): Position {
    var mover := p.stm;
    if m.Drop? then
      p.WithHand(mover, Decrement(p.HandOf(mover), m.kind))
      .(board := p.board[m.to := Some(Piece(m.kind, mover, false))], stm := mover.Flip())
    else
      var moved := p.board[m.to := Some(m.after)][m.from := None];
      var hand := match p.board[m.to]
                  case None => p.HandOf(mover)
                  case Some(victim) => Increment(p.HandOf(mover), victim.kind);
      p.WithHand(mover, hand).(board := moved, stm := mover.Flip())
  }

  function UndoMove(p: Position, m: Move, captured: Cell): Position {
    var mover := p.stm.Flip();
    if m.Drop? then
      p.WithHand(mover, Increment(p.HandOf(mover), m.kind)).(board := p.board[m.to := None], stm := mover)
    else
      var restored := p.board[m.from := Some(Before(m))][m.to := captured];
      var hand := match captured
                  case None => p.HandOf(mover)
                  case Some(victim) => Decrement(p.HandOf(mover), victim.kind);
      p.WithHand(mover, hand).(board := restored, stm := mover)
  }

  /** Passing the turn touches neither board nor hands. */
  function DoNullMove(p: Position): Position {
    p.(stm := p.stm.Flip())
  }

  /** What every generated move satisfies.  King safety, the shape of a piece's
      movement and the colour of the victim play no part in the results here. */
  predicate Playable(p: Position, m: Move) {
    if m.Drop? then
      !m.kind.King? && p.board[m.to].None? && HandCount(p.HandOf(p.stm), m.kind) > 0
    else
      m.from != m.to && p.board[m.from] == Some(Before(m)) && (m.promote ==> m.after.promoted)
  }

  predicate IsKind(c: Cell, k: Kind) {
    c.Some? && c.value.kind == k
  }

  function One(b: bool): nat {
    if b then 1 else 0
  }

  function BoardCount(b: seq<Cell>, k: Kind): nat {
    if b == [] then 0 else BoardCount(b[..|b| - 1], k) + One(IsKind(b[|b| - 1], k))
  }

  function Occupied(b: seq<Cell>): nat {
    if b == [] then 0 else Occupied(b[..|b| - 1]) + One(b[|b| - 1].Some?)
  }

  function HandTotal(h: Hand): nat {
    h[0] + h[1] + h[2] + h[3] + h[4] + h[5] + h[6]
  }

  function Total(p: Position, k: Kind): nat {
    BoardCount(p.board, k) + HandCount(p.black, k) + HandCount(p.white, k)
  }

  /** At most one full set of pieces is in play. */
  ghost predicate Sound(p: Position) {
    forall k: Kind :: Total(p, k) <= k.Population()
  }

  function Pieces(p: Position): nat {
    Occupied(p.board) + HandTotal(p.black) + HandTotal(p.white)
  }

  lemma {:induction false} BoardCountUpdate(b: seq<Cell>, i: nat, c: Cell, k: Kind)
    requires i < |b|
    ensures BoardCount(b[i := c], k) + One(IsKind(b[i], k)) == BoardCount(b, k) + One(IsKind(c, k))
  {
    var n := |b| - 1;
    if i == n {
      assert b[i := c][..n] == b[..n];
    } else {
      assert b[i := c][..n] == b[..n][i := c];
      BoardCountUpdate(b[..n], i, c, k);
    }
  }

  lemma {:induction false} BoardCountsAddUp(b: seq<Cell>)
    ensures Occupied(b)
         == BoardCount(b, Pawn) + BoardCount(b, Lance) + BoardCount(b, Knight) + BoardCount(b, Silver)
          + BoardCount(b, Gold) + BoardCount(b, Bishop) + BoardCount(b, Rook) + BoardCount(b, King)
  {
    if b != [] {
      BoardCountsAddUp(b[..|b| - 1]);
    }
  }

  lemma PiecesAreTotals(p: Position)
    ensures Pieces(p) == Total(p, Pawn) + Total(p, Lance) + Total(p, Knight) + Total(p, Silver)
                         + Total(p, Gold) + Total(p, Bishop) + Total(p, Rook) + Total(p, King)
  {
    BoardCountsAddUp(p.board);
  }

  /** A sound position has at most forty pieces on board and in hand. */
  lemma AtMostForty(p: Position)
    requires Sound(p)
    ensures Pieces(p) <= 40
  {
    PiecesAreTotals(p);
    assert Total(p, Pawn) <= 18 && Total(p, Lance) <= 4 && Total(p, Knight) <= 4 && Total(p, Silver) <= 4;
    assert Total(p, Gold) <= 4 && Total(p, Bishop) <= 2 && Total(p, Rook) <= 2 && Total(p, King) <= 2;
  }

  lemma {:induction false} CountPositive(b: seq<Cell>, i: nat, k: Kind)
    requires i < |b| && IsKind(b[i], k)
    ensures BoardCount(b, k) > 0
  {
    if i < |b| - 1 {
      CountPositive(b[..|b| - 1], i, k);
    }
  }

  /** The hand that receives a captured piece always has room for it, so the cap
      in `Increment` never loses a piece. */
  lemma RoomForVictim(p: Position, m: Move)
    requires Sound(p) && m.Board? && p.board[m.to].Some? && !p.board[m.to].value.kind.King?
    ensures HandCount(p.HandOf(p.stm), p.board[m.to].value.kind) < p.board[m.to].value.kind.Population()
  {
    var k := p.board[m.to].value.kind;
    CountPositive(p.board, m.to, k);
    assert Total(p, k) <= k.Population();
  }

  /** What a move takes out of the mover's hand, and what it puts in. */
  lemma HandsAfter(p: Position, m: Move, k: Kind)
    requires Sound(p) && Playable(p, m)
    ensures HandCount(DoMove(p, m).black, k) + HandCount(DoMove(p, m).white, k) + One(m.Drop? && m.kind == k)
         == HandCount(p.black, k) + HandCount(p.white, k) + One(!k.King? && IsKind(Captured(p, m), k))
  {
    if m.Board? && p.board[m.to].Some? && !p.board[m.to].value.kind.King? {
      RoomForVictim(p, m);
    }
  }

  lemma BoardAfter(p: Position, m: Move, k: Kind)
    requires Playable(p, m)
    ensures BoardCount(DoMove(p, m).board, k) + One(IsKind(Captured(p, m), k))
         == BoardCount(p.board, k) + One(m.Drop? && m.kind == k)
  {
    if m.Drop? {
      BoardCountUpdate(p.board, m.to, Some(Piece(m.kind, p.stm, false)), k);
    } else {
      BoardCountUpdate(p.board, m.to, Some(m.after), k);
      BoardCountUpdate(p.board[m.to := Some(m.after)], m.from, None, k);
    }
  }

  /** Every kind's population is conserved, except that a captured king leaves
      the game: no hand has a slot for it. */
  lemma MoveConserves(p: Position, m: Move, k: Kind)
    requires Sound(p) && Playable(p, m)
    ensures Total(DoMove(p, m), k) + One(k.King? && IsKind(Captured(p, m), King)) == Total(p, k)
  {
    HandsAfter(p, m, k);
    BoardAfter(p, m, k);
  }

  /** The number of pieces in the game drops by one exactly when a king is taken. */
  lemma MoveConservesPieces(p: Position, m: Move)
    requires Sound(p) && Playable(p, m)
    ensures Pieces(DoMove(p, m)) + One(IsKind(Captured(p, m), King)) == Pieces(p)
  {
    PiecesAreTotals(p);
    PiecesAreTotals(DoMove(p, m));
    forall k: Kind
      ensures Total(DoMove(p, m), k) + One(k.King? && IsKind(Captured(p, m), King)) == Total(p, k)
    {
      MoveConserves(p, m, k);
    }
  }

  lemma SoundAfterMove(p: Position, m: Move)
    requires Sound(p) && Playable(p, m)
    ensures Sound(DoMove(p, m))
  {
    forall k: Kind
      ensures Total(DoMove(p, m), k) <= k.Population()
    {
      MoveConserves(p, m, k);
      assert Total(p, k) <= k.Population();
    }
  }

  /** The hand slot the move touches does not run into its cap. */
  predicate FitsInHand(p: Position, m: Move) {
    if m.Drop? then HandCount(p.HandOf(p.stm), m.kind) <= m.kind.Population()
    else match p.board[m.to]
         case None => true
         case Some(victim) => victim.kind.King? || HandCount(p.HandOf(p.stm), victim.kind) < victim.kind.Population()
  }

  /** Taking a move back restores board, both hands and the side to move exactly
      when no hand slot ran into its cap; past it a captured piece is lost. */
  lemma UndoExact(p: Position, m: Move)
    requires Playable(p, m)
    ensures UndoMove(DoMove(p, m), m, Captured(p, m)) == p <==> FitsInHand(p, m)
  {
    var r := UndoMove(DoMove(p, m), m, Captured(p, m));
    assert r.board == p.board;
    if FitsInHand(p, m) {
      assert r.HandOf(p.stm) == p.HandOf(p.stm);
    } else {
      var k := if m.Drop? then m.kind else p.board[m.to].value.kind;
      assert HandCount(r.HandOf(p.stm), k) != HandCount(p.HandOf(p.stm), k);
    }
  }

  /** In a sound position no slot can be full, so undo is exact. */
  lemma UndoRestores(p: Position, m: Move)
    requires Sound(p) && Playable(p, m)
    ensures UndoMove(DoMove(p, m), m, Captured(p, m)) == p
  {
    if m.Drop? {
      assert Total(p, m.kind) <= m.kind.Population();
    } else if p.board[m.to].Some? && !p.board[m.to].value.kind.King? {
      RoomForVictim(p, m);
    }
    UndoExact(p, m);
  }

  // ----- kings -----

  predicate IsKingOf(c: Cell, color: Color) {
    c.Some? && c.value.kind.King? && c.value.color == color
  }

  /** The lowest-numbered square at or above `i` that holds `color`'s king. */
  function FindKing(b: Board, color: Color, i: nat): (r: Option<Square>)
    requires i <= SQUARES
    ensures r.Some? ==> IsKingOf(b[r.value], color)
    ensures r.None? ==> forall s :: i <= s < SQUARES ==> !IsKingOf(b[s], color)
    decreases SQUARES - i
  {
    if i == SQUARES then None
    else if IsKingOf(b[i], color) then Some(i)
    else FindKing(b, color, i + 1)
  }

  function KingSquare(p: Position, color: Color): Option<Square> {
    FindKing(p.board, color, 0)
  }

  lemma {:induction false} FindKingCongruent(b: Board, c: Board, color: Color, i: nat)
    requires i <= SQUARES
    requires forall s :: 0 <= s < SQUARES ==> IsKingOf(b[s], color) == IsKingOf(c[s], color)
    ensures FindKing(b, color, i) == FindKing(c, color, i)
    decreases SQUARES - i
  {
    if i < SQUARES {
      FindKingCongruent(b, c, color, i + 1);
    }
  }

  predicate MovesKingOf(m: Move, color: Color) {
    m.Board? && m.after.kind.King? && m.after.color == color
  }

  /** A king stays where it is unless it is the piece moved or the piece taken. */
  lemma KingStays(p: Position, m: Move, color: Color)
    requires Playable(p, m) && !MovesKingOf(m, color) && !IsKingOf(Captured(p, m), color)
    ensures KingSquare(DoMove(p, m), color) == KingSquare(p, color)
  {
    FindKingCongruent(p.board, DoMove(p, m).board, color, 0);
  }

  lemma KingSurvives(p: Position, m: Move, color: Color)
    requires Playable(p, m) && !IsKingOf(Captured(p, m), color) && KingSquare(p, color).Some?
    ensures KingSquare(DoMove(p, m), color).Some?
  {
    if MovesKingOf(m, color) {
      assert IsKingOf(DoMove(p, m).board[m.to], color);
    } else {
      KingStays(p, m, color);
    }
  }
}
