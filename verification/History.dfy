/** The history tables shared by the threads of one node: gravity updates that load and
    store in separate steps, and the cells the keys select. */
module History {
  import opened Shogi
  import opened TwinPicker

  const CORRECTION_D := 1024
  const PAWN_D := 8192
  const CORRHIST_BASE_SIZE := 65536
  const PAWN_HISTORY_BASE_SIZE := 8192
  const CHANNELS := 4
  const PIECE_NB := 32

  function Abs(x: int): nat {
    if x < 0 then -x else x
  }

  predicate Within(x: int, d: int) {
    -d <= x <= d
  }

  function Clamp(bonus: int, d: int): int {
    if bonus < -d then -d else if bonus > d then d else bonus
  }

  /** The update of one entry, with a division that rounds towards zero. */
  function Gravity(entry: int, bonus: int, d: int): int
    requires d > 0
  {
    var c := Clamp(bonus, d);
    entry + c - TruncDiv(entry * Abs(c), d)
  }

  lemma FloorScaled(e: nat, c: nat, d: nat)
    requires e <= d && c <= d && 0 < d
    ensures 0 <= (e * c) / d <= c && (e * c) / d <= e
    ensures e + c - (e * c) / d <= d
  {
    Scaled(e, c, d, (e * c) / d, (e * c) % d);
  }

  lemma Scaled(e: nat, c: nat, d: nat, q: int, r: int)
    requires e <= d && c <= d && e * c == q * d + r && 0 <= r < d
    ensures 0 <= q <= c && q <= e && e + c - q <= d
  {
    Monotone(e, d, c);
    Monotone(c, d, e);
    Below(q, c, d, r);
    Below(q, e, d, r);
    Positive(e, c);
    if q < 0 {
      Monotone(q, -1, d);
    }
    Corner(e, c, d);
    Distribute(e + c, q, d);
    AtMost(e + c - q, d, (e + c) * d - q * d, r);
  }

  lemma Distribute(x: int, y: int, d: int)
    ensures (x - y) * d == x * d - y * d && x * d == d * x
  {}

  /** The rectangle that remains at the corner is not negative. */
  lemma Corner(e: nat, c: nat, d: nat)
    requires e <= d && c <= d
    ensures d * (e + c) <= d * d + e * c
  {
    Positive(d - e, d - c);
    assert (d - e) * (d - c) == d * d - d * (e + c) + e * c;
  }

  lemma AtMost(x: int, d: int, product: int, r: int)
    requires d > 0 && product == x * d && product <= d * d + r && r < d
    ensures x <= d
  {
    if x > d {
      Monotone(d + 1, x, d);
    }
  }

  lemma Monotone(a: int, b: int, n: nat)
    requires a <= b
    ensures a * n <= b * n
  {}

  lemma Positive(a: nat, b: nat)
    ensures a * b >= 0
  {}

  lemma Below(q: int, x: int, d: nat, r: int)
    requires 0 < d && 0 <= r && q * d + r <= x * d
    ensures q <= x
  {
    if q > x {
      Monotone(x + 1, q, d);
    }
  }

  /** An entry within the limit stays within it, for every bonus and both signs. */
  lemma GravityWithin(entry: int, bonus: int, d: int)
    requires d > 0 && Within(entry, d)
    ensures Within(Gravity(entry, bonus, d), d)
  {
    FloorScaled(Abs(entry), Abs(Clamp(bonus, d)), d);
    assert entry < 0 ==> (-entry) * Abs(Clamp(bonus, d)) == -(entry * Abs(Clamp(bonus, d)));
  }

  /** A bonus never lowers an entry and a malus never raises one. */
  lemma GravityMoves(entry: int, bonus: int, d: int)
    requires d > 0 && Within(entry, d)
    ensures bonus >= 0 ==> entry <= Gravity(entry, bonus, d)
    ensures bonus <= 0 ==> Gravity(entry, bonus, d) <= entry
  {
    FloorScaled(Abs(entry), Abs(Clamp(bonus, d)), d);
    assert entry < 0 ==> (-entry) * Abs(Clamp(bonus, d)) == -(entry * Abs(Clamp(bonus, d)));
  }

  /** What an update comes to: the bonus cut off at the limit, less the share of it that the
      entry already is of the limit, rounded towards zero. */
  predicate Pulled(entry: int, bonus: int, d: int, after: int) {
    var c := if bonus >= d then d else if bonus <= -d then -d else bonus;
    var rest := d * (after - entry - c) + entry * (if c < 0 then -c else c);
    if entry >= 0 then 0 <= rest < d else -d < rest <= 0
  }

  /** Nothing else is pulled so. */
  lemma PulledUnique(entry: int, bonus: int, d: int, a: int, b: int)
    requires d > 0 && Pulled(entry, bonus, d, a) && Pulled(entry, bonus, d, b)
    ensures a == b
  {
    var c := if bonus >= d then d else if bonus <= -d then -d else bonus;
    NearMultiples(a - entry - c, b - entry - c, d, entry * (if c < 0 then -c else c));
  }

  lemma NearMultiples(x: int, y: int, d: int, e: int)
    requires d > 0
    requires (0 <= d * x + e < d && 0 <= d * y + e < d) || (-d < d * x + e <= 0 && -d < d * y + e <= 0)
    ensures x == y
  {
    if x > y {
      Monotone(y + 1, x, d);
    } else if y > x {
      Monotone(x + 1, y, d);
    }
  }

  lemma GravityPulls(entry: int, bonus: int, d: int)
    requires d > 0
    ensures Pulled(entry, bonus, d, Gravity(entry, bonus, d))
  {
    var c := Clamp(bonus, d);
    var x := entry * Abs(c);
    TruncRest(x, d);
    SameSign(entry, Abs(c));
    assert Gravity(entry, bonus, d) - entry - c == -TruncDiv(x, d);
    assert d * -TruncDiv(x, d) == -(d * TruncDiv(x, d));
  }

  lemma TruncRest(x: int, d: int)
    requires d > 0
    ensures if x >= 0 then 0 <= x - d * TruncDiv(x, d) < d else -d < x - d * TruncDiv(x, d) <= 0
  {
    var y := if x >= 0 then x else -x;
    assert y == d * (y / d) + y % d;
    assert d * -(y / d) == -(d * (y / d));
  }

  lemma SameSign(e: int, c: nat)
    ensures e >= 0 ==> e * c >= 0
    ensures e <= 0 ==> e * c <= 0
  {}

  /** An empty entry takes the bonus as it is, a full one no more of it, and a bonus that
      reaches the limit fills any entry. */
  lemma GravityCorners(entry: int, bonus: int, d: int)
    requires d > 0
    ensures Within(bonus, d) ==> Gravity(0, bonus, d) == bonus
    ensures bonus >= 0 ==> Gravity(d, bonus, d) == d
    ensures bonus <= 0 ==> Gravity(-d, bonus, d) == -d
    ensures bonus >= d ==> Gravity(entry, bonus, d) == d
    ensures bonus <= -d ==> Gravity(entry, bonus, d) == -d
  {
    GravityPulls(0, bonus, d);
    GravityPulls(d, bonus, d);
    GravityPulls(-d, bonus, d);
    GravityPulls(entry, bonus, d);
    hide Gravity;
    if Within(bonus, d) {
      assert Pulled(0, bonus, d, bonus);
      PulledUnique(0, bonus, d, Gravity(0, bonus, d), bonus);
    }
    if bonus >= 0 {
      FullTakesNoMore(bonus, d);
      PulledUnique(d, bonus, d, Gravity(d, bonus, d), d);
    }
    if bonus <= 0 {
      FullTakesNoMore(-bonus, d);
      PulledUnique(-d, bonus, d, Gravity(-d, bonus, d), -d);
    }
    if bonus >= d {
      LimitFills(entry, d);
      PulledUnique(entry, bonus, d, Gravity(entry, bonus, d), d);
    }
    if bonus <= -d {
      LimitFills(entry, d);
      PulledUnique(entry, bonus, d, Gravity(entry, bonus, d), -d);
    }
  }

  lemma FullTakesNoMore(bonus: int, d: int)
    requires d > 0 && bonus >= 0
    ensures Pulled(d, bonus, d, d) && Pulled(-d, -bonus, d, -d)
  {
    var c: int := if bonus >= d then d else bonus;
    assert d * -c == -(d * c) && -d * c == -(d * c);
  }

  lemma LimitFills(entry: int, d: int)
    requires d > 0
    ensures forall bonus {:trigger Pulled(entry, bonus, d, d)} :: bonus >= d ==> Pulled(entry, bonus, d, d)
    ensures forall bonus {:trigger Pulled(entry, bonus, d, -d)} :: bonus <= -d ==> Pulled(entry, bonus, d, -d)
  {
    assert d * -entry == -(entry * d);
  }

  // ----- threads -----

  /** A thread between the load and the store of one update holds what it has loaded. */
  datatype Thread = Resting | Loaded(cell: nat, value: int, bonus: int)

  datatype Memory = Memory(cells: seq<int>, threads: seq<Thread>)

  datatype Access = Load(thread: nat, cell: nat, bonus: int) | Store(thread: nat)

  predicate Enabled(m: Memory, a: Access) {
    a.thread < |m.threads| && match a
                              case Load(t, c, _) => m.threads[t].Resting? && c < |m.cells|
                              case Store(t) => m.threads[t].Loaded? && m.threads[t].cell < |m.cells|
  }

  function Apply(m: Memory, a: Access, d: int): Memory
    requires d > 0 && Enabled(m, a)
  {
    match a
    case Load(t, c, bonus) => m.(threads := m.threads[t := Loaded(c, m.cells[c], bonus)])
    case Store(t) =>
      var l := m.threads[t];
      m.(cells := m.cells[l.cell := Gravity(l.value, l.bonus, d)], threads := m.threads[t := Resting])
  }

  predicate Bounded(m: Memory, d: int) {
    && (forall c :: 0 <= c < |m.cells| ==> Within(m.cells[c], d))
    && (forall t :: 0 <= t < |m.threads| && m.threads[t].Loaded? ==> Within(m.threads[t].value, d))
  }

  ghost predicate Interleaving(m: Memory, accesses: seq<Access>, d: int)
    requires d > 0
    decreases |accesses|
  {
    accesses == [] || (Enabled(m, accesses[0]) && Interleaving(Apply(m, accesses[0], d), accesses[1..], d))
  }

  ghost function After(m: Memory, accesses: seq<Access>, d: int): Memory
    requires d > 0 && Interleaving(m, accesses, d)
    decreases |accesses|
  {
    if accesses == [] then m else After(Apply(m, accesses[0], d), accesses[1..], d)
  }

  /** However the loads and stores of any number of threads interleave, and whatever
      updates get lost, every entry stays within the limit. */
  lemma {:induction false} RacesStayBounded(m: Memory, accesses: seq<Access>, d: int)
    requires d > 0 && Bounded(m, d) && Interleaving(m, accesses, d)
    ensures Bounded(After(m, accesses, d), d)
    decreases |accesses|
  {
    if accesses != [] {
      var a := accesses[0];
      if a.Store? {
        GravityWithin(m.threads[a.thread].value, m.threads[a.thread].bonus, d);
      }
      hide Gravity;
      assert Bounded(Apply(m, a, d), d);
      RacesStayBounded(Apply(m, a, d), accesses[1..], d);
    }
  }

  /** A thread that nobody comes between updates one cell, by that law. */
  lemma UndisturbedUpdate(m: Memory, t: nat, c: nat, bonus: int, d: int)
    requires d > 0 && Enabled(m, Load(t, c, bonus))
    ensures var loaded := Apply(m, Load(t, c, bonus), d);
      && Enabled(loaded, Store(t))
      && var after := Apply(loaded, Store(t), d);
      && after.threads == m.threads && |after.cells| == |m.cells|
      && Pulled(m.cells[c], bonus, d, after.cells[c])
      && forall i :: 0 <= i < |m.cells| && i != c ==> after.cells[i] == m.cells[i]
  {
    GravityPulls(m.cells[c], bonus, d);
    hide Gravity, Pulled;
  }

  // ----- the cells -----

  /** Bitwise conjunction. */
  function And(a: nat, b: nat): nat {
    if a == 0 || b == 0 then 0 else (a % 2) * (b % 2) + 2 * And(a / 2, b / 2)
  }

  predicate PowerOfTwo(n: nat) {
    n == 1 || (n > 1 && n % 2 == 0 && PowerOfTwo(n / 2))
  }

  lemma PowerPositive(n: nat)
    requires PowerOfTwo(n)
    ensures n >= 1
  {}

  /** Masking with one less than a power of two takes the remainder. */
  lemma {:induction false} MaskIsRemainder(key: nat, n: nat)
    requires PowerOfTwo(n)
    ensures And(key, n - 1) == key % n
  {
    if n == 1 {
    } else if key == 0 {
    } else {
      MaskIsRemainder(key / 2, n / 2);
      assert (n - 1) % 2 == 1 && (n - 1) / 2 == n / 2 - 1;
      Halves(key, n / 2);
    }
  }

  lemma Halves(key: nat, k: nat)
    requires k > 0
    ensures key % (2 * k) == key % 2 + 2 * ((key / 2) % k)
  {
    var q, r := (key / 2) / k, (key / 2) % k;
    assert key == 2 * (key / 2) + key % 2 && key / 2 == q * k + r;
    assert key == q * (2 * k) + (2 * r + key % 2);
    RemainderUnique(key, 2 * k, q, 2 * r + key % 2);
  }

  lemma RemainderUnique(x: nat, n: nat, q: int, r: int)
    requires n > 0 && x == q * n + r && 0 <= r < n
    ensures x / n == q && x % n == r
  {
    var p, s := x / n, x % n;
    assert (p - q) * n == r - s;
    if p > q {
      Monotone(1, p - q, n);
    } else if p < q {
      Monotone(1, q - p, n);
    }
  }

  lemma {:induction false} PowersMultiply(a: nat, b: nat)
    requires PowerOfTwo(a) && PowerOfTwo(b)
    ensures PowerOfTwo(a * b)
    decreases a
  {
    if a > 1 {
      PowersMultiply(a / 2, b);
      HalfProduct(a, b);
      DoublePower(a / 2 * b);
    }
  }

  lemma HalfProduct(a: nat, b: nat)
    requires a % 2 == 0
    ensures a * b == 2 * (a / 2 * b)
  {}

  lemma DoublePower(n: nat)
    requires PowerOfTwo(n)
    ensures PowerOfTwo(2 * n)
  {
    assert 2 * n / 2 == n;
  }

  datatype Channel = PawnKey | MinorKey | NonPawnWhite | NonPawnBlack {
    function Index(): (i: nat)
      ensures i < CHANNELS
    {
      match this
      case PawnKey => 0
      case MinorKey => 1
      case NonPawnWhite => 2
      case NonPawnBlack => 3
    }
  }

  function ColorIndex(c: Color): (i: nat)
    ensures i < 2
  {
    if c.Black? then 0 else 1
  }

  function PieceCode(p: Piece): (i: nat)
    ensures i < PIECE_NB
  {
    p.kind.Index() + (if p.promoted then 8 else 0) + (if p.color.White? then 16 else 0)
  }

  /** Digits of a mixed-radix number determine it, and it them. */
  lemma Digits(a: nat, b: nat, n: nat, x: nat, y: nat)
    requires x < n && y < n
    ensures a * n + x == b * n + y <==> a == b && x == y
  {
    if a < b {
      Monotone(a + 1, b, n);
    } else if b < a {
      Monotone(b + 1, a, n);
    }
  }

  lemma DigitBelow(a: nat, m: nat, n: nat, x: nat)
    requires a < m && x < n
    ensures a * n + x < m * n
  {
    Monotone(a + 1, m, n);
  }

  /** The tables of one node, sized by its thread count. */
  class SharedHistories {
    const corrMask: nat
    const pawnMask: nat
    const correction: array<int>
    const pawn: array<int>

    ghost predicate Valid()
      reads correction, pawn
    {
      && correction != pawn
      && PowerOfTwo(corrMask + 1) && PowerOfTwo(pawnMask + 1)
      && correction.Length == (corrMask + 1) * (2 * CHANNELS)
      && pawn.Length == (pawnMask + 1) * (PIECE_NB * SQUARES)
      && (forall i :: 0 <= i < correction.Length ==> Within(correction[i], CORRECTION_D))
      && (forall i :: 0 <= i < pawn.Length ==> Within(pawn[i], PAWN_D))
    }

    constructor (threadCount: nat)
      requires PowerOfTwo(threadCount)
      ensures Valid() && fresh(correction) && fresh(pawn)
      ensures corrMask + 1 == threadCount * CORRHIST_BASE_SIZE && pawnMask + 1 == threadCount * PAWN_HISTORY_BASE_SIZE
      ensures (forall i :: 0 <= i < correction.Length ==> correction[i] == 0)
           && (forall i :: 0 <= i < pawn.Length ==> pawn[i] == -1238)
    {
      var slots, planes := threadCount * CORRHIST_BASE_SIZE, threadCount * PAWN_HISTORY_BASE_SIZE;
      hide PowerOfTwo;
      BaseSizes();
      PowersMultiply(threadCount, CORRHIST_BASE_SIZE);
      PowersMultiply(threadCount, PAWN_HISTORY_BASE_SIZE);
      PowerPositive(threadCount);
      corrMask, pawnMask := slots - 1, planes - 1;
      correction := new int[slots * (2 * CHANNELS)](i => 0);
      pawn := new int[planes * (PIECE_NB * SQUARES)](i => -1238);
    }

    /** The slot is picked by a mask over the whole key. */
    function CorrIndex(key: nat, color: Color, channel: Channel): nat {
      (And(key, corrMask) * 2 + ColorIndex(color)) * CHANNELS + channel.Index()
    }

    function PawnIndex(key: nat, pc: Piece, to: Square): nat {
      (And(key, pawnMask) * PIECE_NB + PieceCode(pc)) * SQUARES + to
    }

    /** Every triple has a cell, and two triples share one exactly when slot, colour and
        channel are the same. */
    lemma CorrectionCells(k1: nat, c1: Color, h1: Channel, k2: nat, c2: Color, h2: Channel)
      requires Valid()
      ensures CorrIndex(k1, c1, h1) < correction.Length
      ensures CorrIndex(k1, c1, h1) == CorrIndex(k2, c2, h2)
         <==> k1 % (corrMask + 1) == k2 % (corrMask + 1) && c1 == c2 && h1 == h2
    {
      hide And, PowerOfTwo;
      MaskIsRemainder(k1, corrMask + 1);
      MaskIsRemainder(k2, corrMask + 1);
      var s1, s2 := And(k1, corrMask), And(k2, corrMask);
      DigitBelow(s1, corrMask + 1, 2, ColorIndex(c1));
      DigitBelow(s1 * 2 + ColorIndex(c1), (corrMask + 1) * 2, CHANNELS, h1.Index());
      Digits(s1 * 2 + ColorIndex(c1), s2 * 2 + ColorIndex(c2), CHANNELS, h1.Index(), h2.Index());
      Digits(s1, s2, 2, ColorIndex(c1), ColorIndex(c2));
    }

    lemma PawnCells(k1: nat, p1: Piece, t1: Square, k2: nat, p2: Piece, t2: Square)
      requires Valid()
      ensures PawnIndex(k1, p1, t1) < pawn.Length
      ensures PawnIndex(k1, p1, t1) == PawnIndex(k2, p2, t2)
         <==> k1 % (pawnMask + 1) == k2 % (pawnMask + 1) && p1 == p2 && t1 == t2
    {
      hide PieceCode, And, PowerOfTwo;
      MaskIsRemainder(k1, pawnMask + 1);
      MaskIsRemainder(k2, pawnMask + 1);
      PieceCodesDiffer(p1, p2);
      var s1, s2 := And(k1, pawnMask), And(k2, pawnMask);
      DigitBelow(s1, pawnMask + 1, PIECE_NB, PieceCode(p1));
      DigitBelow(s1 * PIECE_NB + PieceCode(p1), (pawnMask + 1) * PIECE_NB, SQUARES, t1);
      Digits(s1 * PIECE_NB + PieceCode(p1), s2 * PIECE_NB + PieceCode(p2), SQUARES, t1, t2);
      Digits(s1, s2, PIECE_NB, PieceCode(p1), PieceCode(p2));
    }

    /** Without another thread in between: one cell changes, by gravity. */
    method CorrectionUpdate(key: nat, color: Color, channel: Channel, bonus: int)
      requires Valid()
      modifies correction
      ensures Valid()
      ensures CorrIndex(key, color, channel) < correction.Length
      ensures Pulled(old(correction[..])[CorrIndex(key, color, channel)], bonus, CORRECTION_D,
              correction[CorrIndex(key, color, channel)])
      ensures forall i :: 0 <= i < correction.Length && i != CorrIndex(key, color, channel) ==>
        correction[i] == old(correction[i])
    {
      CorrectionCells(key, color, channel, key, color, channel);
      var i := CorrIndex(key, color, channel);
      GravityWithin(correction[i], bonus, CORRECTION_D);
      GravityPulls(correction[i], bonus, CORRECTION_D);
      hide Gravity, Pulled, PowerOfTwo, And;
      correction[i] := Gravity(correction[i], bonus, CORRECTION_D);
    }

    method PawnUpdate(key: nat, pc: Piece, to: Square, bonus: int)
      requires Valid()
      modifies pawn
      ensures Valid()
      ensures PawnIndex(key, pc, to) < pawn.Length
      ensures Pulled(old(pawn[..])[PawnIndex(key, pc, to)], bonus, PAWN_D, pawn[PawnIndex(key, pc, to)])
      ensures forall i :: 0 <= i < pawn.Length && i != PawnIndex(key, pc, to) ==> pawn[i] == old(pawn[i])
    {
      PawnCells(key, pc, to, key, pc, to);
      var i := PawnIndex(key, pc, to);
      GravityWithin(pawn[i], bonus, PAWN_D);
      GravityPulls(pawn[i], bonus, PAWN_D);
      hide Gravity, Pulled, PowerOfTwo, And, PieceCode;
      pawn[i] := Gravity(pawn[i], bonus, PAWN_D);
    }
  }

  lemma PieceCodesDiffer(p: Piece, q: Piece)
    ensures PieceCode(p) == PieceCode(q) <==> p == q
  {}

  lemma BaseSizes()
    ensures PowerOfTwo(CORRHIST_BASE_SIZE) && PowerOfTwo(PAWN_HISTORY_BASE_SIZE)
  {
    assert PowerOfTwo(1) && PowerOfTwo(2) && PowerOfTwo(4) && PowerOfTwo(8) && PowerOfTwo(16) && PowerOfTwo(32);
    assert PowerOfTwo(64) && PowerOfTwo(128) && PowerOfTwo(256) && PowerOfTwo(512) && PowerOfTwo(1024);
    assert PowerOfTwo(2048) && PowerOfTwo(4096) && PowerOfTwo(8192) && PowerOfTwo(16384) && PowerOfTwo(32768);
  }
}
