/** Two symmetries of the index space: turning the board round swaps the two
    perspectives, and mirroring the files changes nothing while the perspective's
    king stands off the centre file. */
module Symmetry {
  import opened Wrappers
  import opened Shogi
  import opened Features
  import opened MoveDelta
  import opened FeatureSpace

  /** Two views that report the same indices have the same active features. */
  lemma SameReports(v: View, p: Position, w: View, q: Position)
    requires WithinCaps(p.black) && WithinCaps(p.white) && WithinCaps(q.black) && WithinCaps(q.white)
    requires v.kingCode == w.kingCode
    requires forall f: Feature :: Reports(v, p, f) <==> Reports(w, q, f)
    ensures multiset(ActiveIn(v, p)) == multiset(ActiveIn(w, q))
  {
    hide Reports, RealFeatures;
    forall f: Feature
      ensures Occurs(v, p, f) == Occurs(w, q, f)
    {
      RealDistinct(v, p, f);
      RealDistinct(w, q, f);
      RealMember(v, p, f);
      RealMember(w, q, f);
    }
    assert multiset(RealFeatures(v, p)) == multiset(RealFeatures(w, q)) by {
      forall f: Feature
        ensures multiset(RealFeatures(v, p))[f] == multiset(RealFeatures(w, q))[f]
      {
        assert Occurs(v, p, f) == Occurs(w, q, f);
      }
    }
    assert |RealFeatures(v, p)| == |multiset(RealFeatures(v, p))| == |RealFeatures(w, q)|;
  }

  // ----- turning the board round -----

  function FlipCell(c: Cell): Cell {
    match c
    case None => None
    case Some(piece) => Some(piece.(color := piece.color.Flip()))
  }

  function RotateBoard(b: Board): (r: Board)
    ensures forall i :: 0 <= i < SQUARES ==> r[i] == FlipCell(b[SQUARES - 1 - i])
  {
    seq(SQUARES, i requires 0 <= i < SQUARES => FlipCell(b[SQUARES - 1 - i]))
  }

  /** The same position with the players' seats exchanged. */
  function Rotate(p: Position): Position {
    Position(RotateBoard(p.board), p.white, p.black, p.stm.Flip())
  }

  lemma RotatedPiece(v: View, w: View, s: Square, piece: Piece)
    requires w == v.(persp := v.persp.Flip())
    ensures PieceFeature(w, SQUARES - 1 - s, piece.(color := piece.color.Flip())) == PieceFeature(v, s, piece)
  {}

  lemma RotatedHand(v: View, w: View, c: Color, k: Kind, i: nat)
    requires w == v.(persp := v.persp.Flip())
    ensures HandFeature(w, c.Flip(), k, i) == HandFeature(v, c, k, i)
  {}

  lemma RotationReports(v: View, w: View, p: Position, f: Feature)
    requires w == v.(persp := v.persp.Flip())
    requires Reports(v, p, f)
    ensures Reports(w, Rotate(p), f)
  {
    hide PieceFeature, HandFeature, HandKind;
    var q := Rotate(p);
    if s: nat :| OnBoardAs(v, p.board, s, f) {
      RotatedPiece(v, w, s, p.board[s].value);
      assert OnBoardAs(w, q.board, SQUARES - 1 - s, f);
    } else if n: nat, i: nat :| InHandAs(v, Black, p.black, n, i, f) {
      RotatedHand(v, w, Black, HandKind(n), i);
      assert InHandAs(w, White, q.white, n, i, f);
    } else {
      var n: nat, i: nat :| InHandAs(v, White, p.white, n, i, f);
      RotatedHand(v, w, White, HandKind(n), i);
      assert InHandAs(w, Black, q.black, n, i, f);
    }
  }

  lemma RotateTwice(p: Position)
    ensures Rotate(Rotate(p)) == p
  {
    var q := Rotate(Rotate(p));
    forall i: nat | i < SQUARES
      ensures q.board[i] == p.board[i]
    {
      assert q.board[i] == FlipCell(Rotate(p).board[SQUARES - 1 - i]);
    }
    assert q.board == p.board;
  }

  ghost predicate HasOneKing(p: Position, c: Color) {
    exists k: Square :: IsKingOf(p.board[k], c) && forall s: Square :: IsKingOf(p.board[s], c) ==> s == k
  }

  lemma OneKingIsFound(p: Position, c: Color, k: Square)
    requires HasOneKing(p, c) && IsKingOf(p.board[k], c)
    ensures KingSquare(p, c) == Some(k)
  {}

  lemma RotatedKing(p: Position, c: Color)
    requires HasOneKing(p, c)
    ensures KingSquare(p, c).Some?
    ensures KingSquare(Rotate(p), c.Flip()) == Some(SQUARES - 1 - KingSquare(p, c).value)
  {
    var k: Square :| IsKingOf(p.board[k], c);
    var q := Rotate(p);
    OneKingIsFound(p, c, k);
    var r: Square := SQUARES - 1 - k;
    assert IsKingOf(q.board[r], c.Flip());
    forall s: Square | IsKingOf(q.board[s], c.Flip())
      ensures s == r
    {
      var t: Square := SQUARES - 1 - s;
      assert IsKingOf(p.board[t], c);
    }
    OneKingIsFound(q, c.Flip(), r);
  }

  /** Each side sees after the turn what the other saw before it. */
  lemma RotationSwapsPerspectives(p: Position, persp: Color)
    requires Sound(p) && HasOneKing(p, persp)
    ensures KingSquare(p, persp).Some? && KingSquare(Rotate(p), persp.Flip()).Some?
    ensures multiset(ActiveFeatures(Rotate(p), persp.Flip())) == multiset(ActiveFeatures(p, persp))
  {
    hide Reports, ActiveIn, Rotate, HasOneKing;
    RotatedKing(p, persp);
    SoundHands(p);
    var q := Rotate(p);
    var v := ViewFrom(persp, KingSquare(p, persp).value);
    var w := ViewFrom(persp.Flip(), KingSquare(q, persp.Flip()).value);
    RotateTwice(p);
    forall f: Feature
      ensures Reports(v, p, f) <==> Reports(w, q, f)
    {
      if Reports(v, p, f) {
        RotationReports(v, w, p, f);
      }
      if Reports(w, q, f) {
        RotationReports(w, v, q, f);
      }
    }
    assert q.black == p.white && q.white == p.black by { RotatedHands(p); }
    SameReports(v, p, w, q);
  }

  lemma RotatedHands(p: Position)
    ensures Rotate(p).black == p.white && Rotate(p).white == p.black
  {}

  /** The book's own construction of the turned position, square by square and
      piece by piece. */
  method FlippedPosition(p: Position) returns (f: Position)
    requires WithinCaps(p.black) && WithinCaps(p.white)
    ensures f == Rotate(p)
  {
    var board: Board := seq(SQUARES, i => None);
    for idx := 0 to SQUARES
      invariant forall i :: 0 <= i < SQUARES ==>
        board[i] == if i > SQUARES - 1 - idx then FlipCell(p.board[SQUARES - 1 - i]) else None
    {
      match p.board[idx]
      case None =>
      case Some(piece) => board := board[SQUARES - 1 - idx := Some(piece.(color := piece.color.Flip()))];
    }
    assert board == RotateBoard(p.board);
    var white := CopyHand(p.black);
    var black := CopyHand(p.white);
    f := Position(board, black, white, p.stm.Flip());
  }

  method CopyHand(h: Hand) returns (r: Hand)
    requires WithinCaps(h)
    ensures r == h
  {
    r := seq(HAND_KINDS, i => 0);
    for n := 0 to HAND_KINDS
      invariant forall i :: 0 <= i < HAND_KINDS ==> r[i] == if i < n then h[i] else 0
    {
      for i := 0 to h[n]
        invariant forall j :: 0 <= j < HAND_KINDS ==> r[j] == if j < n then h[j] else if j == n then i else 0
      {
        r := Increment(r, HandKind(n));
      }
    }
    assert r == h;
  }

  // ----- mirroring the files -----

  const CENTRE_FILE := 4

  function MirrorSquare(s: Square): Square {
    MirrorIfNeeded(s, true)
  }

  lemma MirrorParts(s: Square)
    ensures MirrorSquare(s) / RANKS == FILES - 1 - s / RANKS && MirrorSquare(s) % RANKS == s % RANKS
    ensures MirrorSquare(s) == (FILES - 1 - s / RANKS) * RANKS + s % RANKS
  {}

  lemma OppositeParts(s: Square)
    ensures (SQUARES - 1 - s) / RANKS == FILES - 1 - s / RANKS && (SQUARES - 1 - s) % RANKS == RANKS - 1 - s % RANKS
  {}

  lemma MirrorSquareTwice(s: Square)
    ensures MirrorSquare(MirrorSquare(s)) == s
  {}

  function MirrorBoard(b: Board): (r: Board)
    ensures forall i: Square :: r[i] == b[MirrorSquare(i)]
  {
    seq(SQUARES, i requires 0 <= i < SQUARES => b[MirrorSquare(i)])
  }

  function MirrorPosition(p: Position): Position {
    p.(board := MirrorBoard(p.board))
  }

  lemma MirroredKing(p: Position, c: Color)
    requires HasOneKing(p, c)
    ensures KingSquare(p, c).Some?
    ensures KingSquare(MirrorPosition(p), c) == Some(MirrorSquare(KingSquare(p, c).value))
  {
    hide MirrorSquare;
    var k: Square :| IsKingOf(p.board[k], c);
    var q := MirrorPosition(p);
    OneKingIsFound(p, c, k);
    MirrorSquareTwice(k);
    forall s: Square | IsKingOf(q.board[s], c)
      ensures s == MirrorSquare(k)
    {
      MirrorSquareTwice(s);
      assert IsKingOf(p.board[MirrorSquare(s)], c);
    }
    assert IsKingOf(q.board[MirrorSquare(k)], c);
    OneKingIsFound(q, c, MirrorSquare(k));
  }

  lemma MirroredView(persp: Color, k: Square)
    ensures ViewFrom(persp, MirrorSquare(k)).kingCode == ViewFrom(persp, k).kingCode
    ensures File(k) != CENTRE_FILE ==>
      ViewFrom(persp, MirrorSquare(k)) == ViewFrom(persp, k).(mirror := !ViewFrom(persp, k).mirror)
    ensures File(k) == CENTRE_FILE ==> ViewFrom(persp, MirrorSquare(k)) == ViewFrom(persp, k)
  {
    MirrorParts(k);
    OppositeParts(k);
    OppositeParts(MirrorSquare(k));
    MirrorSquareTwice(k);
    hide MirrorSquare;
  }

  lemma MirroredSquareCode(v: View, w: View, s: Square)
    requires w == v.(mirror := !v.mirror)
    ensures SquareCode(w, MirrorSquare(s)) == SquareCode(v, s)
  {
    MirrorParts(s);
    OppositeParts(s);
    OppositeParts(MirrorSquare(s));
    MirrorSquareTwice(s);
    hide MirrorSquare;
  }

  lemma MirroredPiece(v: View, w: View, s: Square, piece: Piece)
    requires w == v.(mirror := !v.mirror)
    ensures PieceFeature(w, MirrorSquare(s), piece) == PieceFeature(v, s, piece)
  {
    hide SquareCode, MirrorSquare;
    MirroredSquareCode(v, w, s);
  }

  lemma MirrorReports(v: View, w: View, p: Position, f: Feature)
    requires w == v.(mirror := !v.mirror)
    requires Reports(v, p, f)
    ensures Reports(w, MirrorPosition(p), f)
  {
    hide PieceFeature, HandKind, MirrorSquare;
    var q := MirrorPosition(p);
    if s: nat :| OnBoardAs(v, p.board, s, f) {
      MirroredPiece(v, w, s, p.board[s].value);
      MirrorSquareTwice(s);
      assert OnBoardAs(w, q.board, MirrorSquare(s), f);
    } else if n: nat, i: nat :| InHandAs(v, Black, p.black, n, i, f) {
      assert InHandAs(w, Black, q.black, n, i, f);
    } else {
      var n: nat, i: nat :| InHandAs(v, White, p.white, n, i, f);
      assert InHandAs(w, White, q.white, n, i, f);
    }
  }

  /** Opposite squares hold the same thing, as far as the planes can tell. */
  ghost predicate PlaneSymmetric(v: View, p: Position) {
    forall s: Square :: SamePlane(v, p.board[s], p.board[MirrorSquare(s)])
  }

  predicate SamePlane(v: View, a: Cell, b: Cell) {
    a.Some? == b.Some? && (a.Some? ==> PlaneNumber(v, a.value) == PlaneNumber(v, b.value))
  }

  lemma SymmetricReports(v: View, p: Position, f: Feature)
    requires PlaneSymmetric(v, p) && Reports(v, p, f)
    ensures Reports(v, MirrorPosition(p), f)
  {
    hide PieceFeature, HandFeature, HandKind, MirrorSquare, PlaneNumber, SquareCode;
    var q := MirrorPosition(p);
    if s: nat :| OnBoardAs(v, p.board, s, f) {
      assert SamePlane(v, p.board[s], p.board[MirrorSquare(s)]);
      PieceIndex(v, s, p.board[s].value);
      PieceIndex(v, s, q.board[s].value);
      assert OnBoardAs(v, q.board, s, f);
    } else if n: nat, i: nat :| InHandAs(v, Black, p.black, n, i, f) {
      assert InHandAs(v, Black, q.black, n, i, f);
    } else {
      var n: nat, i: nat :| InHandAs(v, White, p.white, n, i, f);
      assert InHandAs(v, White, q.white, n, i, f);
    }
  }

  lemma PieceIsNotPadding(v: View, s: Square, a: Piece)
    ensures PieceFeature(v, s, a) != Padding(v)
  {
    PieceIndex(v, s, a);
  }

  /** If two positions seen alike have the same features, then a piece in one
      stands in the other on the same square and plane. */
  lemma SameFeaturesSamePlane(v: View, p: Position, q: Position, s: Square)
    requires multiset(ActiveIn(v, p)) == multiset(ActiveIn(v, q)) && p.board[s].Some?
    requires WithinCaps(q.black) && WithinCaps(q.white)
    ensures SamePlane(v, p.board[s], q.board[s])
  {
    hide PieceFeature, HandFeature, HandKind, PlaneNumber, SquareCode, RealFeatures, Padding;
    var f := PieceFeature(v, s, p.board[s].value);
    assert OnBoardAs(v, p.board, s, f);
    RealMember(v, p, f);
    assert f in ActiveIn(v, p);
    assert f in multiset(ActiveIn(v, q));
    PieceIsNotPadding(v, s, p.board[s].value);
    RealMember(v, q, f);
    if t: nat :| OnBoardAs(v, q.board, t, f) {
      PieceIndexInjective(v, s, p.board[s].value, t, q.board[t].value);
    } else if n: nat, i: nat :| InHandAs(v, Black, q.black, n, i, f) {
      PieceIsNotHand(v, s, p.board[s].value, Black, HandKind(n), i);
    } else {
      var n: nat, i: nat :| InHandAs(v, White, q.white, n, i, f);
      PieceIsNotHand(v, s, p.board[s].value, White, HandKind(n), i);
    }
  }

  lemma SameFeaturesPlaneSymmetric(v: View, p: Position)
    requires multiset(ActiveIn(v, p)) == multiset(ActiveIn(v, MirrorPosition(p)))
    requires WithinCaps(p.black) && WithinCaps(p.white)
    ensures PlaneSymmetric(v, p)
  {
    hide ActiveIn, MirrorSquare, PlaneNumber;
    var q := MirrorPosition(p);
    forall s: Square
      ensures SamePlane(v, p.board[s], p.board[MirrorSquare(s)])
    {
      if p.board[s].Some? {
        SameFeaturesSamePlane(v, p, q, s);
      } else if q.board[s].Some? {
        SameFeaturesSamePlane(v, q, p, s);
      }
    }
  }

  /** Mirroring the files preserves a perspective's features exactly when its king
      stands off the centre file, or the position is its own mirror image as far
      as the planes can tell. */
  lemma MirrorPreservesFeatures(p: Position, persp: Color)
    requires Sound(p) && HasOneKing(p, persp)
    ensures KingSquare(p, persp).Some? && KingSquare(MirrorPosition(p), persp).Some?
    ensures multiset(ActiveFeatures(MirrorPosition(p), persp)) == multiset(ActiveFeatures(p, persp))
       <==> File(KingSquare(p, persp).value) != CENTRE_FILE
            || PlaneSymmetric(ViewFrom(persp, KingSquare(p, persp).value), p)
  {
    hide Reports, ActiveIn, ViewFrom, HasOneKing, MirrorSquare, PlaneSymmetric;
    MirroredKing(p, persp);
    SoundHands(p);
    var k := KingSquare(p, persp).value;
    var q := MirrorPosition(p);
    MirroredView(persp, k);
    var v, w := ViewFrom(persp, k), ViewFrom(persp, MirrorSquare(k));
    MirrorPositionTwice(p);
    if File(k) != CENTRE_FILE {
      forall f: Feature
        ensures Reports(v, p, f) <==> Reports(w, q, f)
      {
        if Reports(v, p, f) { MirrorReports(v, w, p, f); }
        if Reports(w, q, f) { MirrorReports(w, v, q, f); }
      }
      SameReports(v, p, w, q);
    } else if PlaneSymmetric(v, p) {
      MirrorKeepsPlaneSymmetry(v, p);
      forall f: Feature
        ensures Reports(v, p, f) <==> Reports(w, q, f)
      {
        if Reports(v, p, f) { SymmetricReports(v, p, f); }
        if Reports(w, q, f) { SymmetricReports(v, q, f); }
      }
      SameReports(v, p, w, q);
    } else if multiset(ActiveIn(v, p)) == multiset(ActiveIn(v, q)) {
      SameFeaturesPlaneSymmetric(v, p);
    }
  }

  lemma MirrorPositionTwice(p: Position)
    ensures MirrorPosition(MirrorPosition(p)) == p
  {
    hide MirrorSquare;
    var q := MirrorPosition(MirrorPosition(p));
    forall i: Square
      ensures q.board[i] == p.board[i]
    {
      MirrorSquareTwice(i);
    }
    assert q.board == p.board;
  }

  lemma MirrorKeepsPlaneSymmetry(v: View, p: Position)
    requires PlaneSymmetric(v, p)
    ensures PlaneSymmetric(v, MirrorPosition(p))
  {
    hide MirrorSquare, PlaneNumber;
    forall s: Square
      ensures SamePlane(v, MirrorPosition(p).board[s], MirrorPosition(p).board[MirrorSquare(s)])
    {
      assert SamePlane(v, p.board[MirrorSquare(s)], p.board[MirrorSquare(MirrorSquare(s))]);
    }
  }
}
