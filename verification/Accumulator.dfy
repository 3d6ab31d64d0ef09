/** The accumulator and the stack of them one search worker keeps: a slot per ply of
    the current line, derived one move at a time and never rebuilt on the way back. */
module Accumulators {
  import opened Wrappers
  import opened Shogi
  import opened Features
  import opened MoveDelta
  import opened Transformer
  import opened Finny

  const MAX_PLY := 246
  const ACC_LEN := MAX_PLY + 8

  /** A position both of whose sides can be evaluated. */
  ghost predicate Evaluable(p: Position) {
    Sound(p) && KingSquare(p, Black).Some? && KingSquare(p, White).Some?
  }

  /** A move search plays: it never takes a king. */
  predicate Steppable(p: Position, m: Move) {
    Playable(p, m) && !IsKind(Captured(p, m), King)
  }

  lemma EvaluableAfter(p: Position, m: Move)
    requires Evaluable(p) && Steppable(p, m)
    ensures Evaluable(DoMove(p, m))
  {
    SoundAfterMove(p, m);
    KingSurvives(p, m, Black);
    KingSurvives(p, m, White);
  }

  ghost function FreshFor(net: Network, p: Position, c: Color): seq<I16>
    requires net.Valid() && Evaluable(p)
  {
    ActiveFeaturesInRange(p, c);
    FreshHalf(net, ActiveFeatures(p, c))
  }

  /** Passing the turn leaves both halves as they are. */
  lemma NullMoveKeepsHalves(net: Network, p: Position, c: Color)
    requires net.Valid() && Evaluable(p)
    ensures Evaluable(DoNullMove(p)) && FreshFor(net, DoNullMove(p), c) == FreshFor(net, p, c)
  {
    hide FreshHalf;
    var q := DoNullMove(p);
    forall k: Kind
      ensures Total(q, k) == Total(p, k) <= k.Population()
    {
      assert Total(p, k) <= k.Population();
    }
    var v := ViewFrom(c, KingSquare(p, c).value);
    assert RealFeatures(v, q) == RealFeatures(v, p);
  }

  class Accumulator {
    const black: array<I16>
    const white: array<I16>

    constructor (lanes: nat)
      ensures fresh(black) && fresh(white) && black != white
      ensures black.Length == lanes && white.Length == lanes
    {
      black := new I16[lanes](i => 0);
      white := new I16[lanes](i => 0);
    }

    function Half(c: Color): array<I16> {
      if c.Black? then black else white
    }

    ghost function Buffers(): set<object> {
      {black, white}
    }

    ghost predicate ApartFrom(a: Accumulator) {
      black != a.black && black != a.white && white != a.black && white != a.white
    }

    /** Both halves are what a refresh from scratch would leave. */
    ghost predicate Represents(net: Network, p: Position)
      requires net.Valid() && Evaluable(p)
      reads black, white
    {
      black[..] == FreshFor(net, p, Black) && white[..] == FreshFor(net, p, White)
    }

    method Refresh(net: Network, p: Position)
      requires net.Valid() && Evaluable(p) && black != white
      requires black.Length == net.lanes && white.Length == net.lanes
      modifies black, white
      ensures Represents(net, p)
    {
      hide ActiveFeatures, FreshHalf, Sound, KingSquare;
      ActiveFeaturesInRange(p, Black);
      ActiveFeaturesInRange(p, White);
      var fs := ActiveFeaturesInto(p, Black);
      RefreshPerspective(black, net, fs);
      fs := ActiveFeaturesInto(p, White);
      RefreshPerspective(white, net, fs);
    }
  }

  lemma DeltaInRange(p: Position, m: Move, c: Color)
    requires Evaluable(p) && Steppable(p, m) && !RequiresFullRefresh(m, c)
    ensures InRange(HalfOf(p, m, c).value.removed) && InRange(HalfOf(p, m, c).value.added)
  {
    hide ActiveFeatures, Sound, KingSquare, DeltaIn;
    var h := HalfOf(p, m, c).value;
    HalfIsExact(p, m, c);
    EvaluableAfter(p, m);
    ActiveFeaturesInRange(p, c);
    ActiveFeaturesInRange(DoMove(p, m), c);
    forall i | 0 <= i < |h.removed|
      ensures h.removed[i] < FEATURE_DIMENSION
    {
      assert h.removed[i] in multiset(h.removed);
      assert h.removed[i] in multiset(ActiveFeatures(p, c));
      assert h.removed[i] in ActiveFeatures(p, c);
    }
    forall i | 0 <= i < |h.added|
      ensures h.added[i] < FEATURE_DIMENSION
    {
      assert h.added[i] in multiset(h.added);
      assert h.added[i] in multiset(ActiveFeatures(DoMove(p, m), c));
      assert h.added[i] in ActiveFeatures(DoMove(p, m), c);
    }
  }

  /** One half of the child from the same half of the parent: patched by the
      move's columns, or rebuilt through the cache when that side's king moved. */
  method DeriveHalf(src: array<I16>, dst: array<I16>, net: Network, post: Position, delta: Delta, c: Color,
                    cache: FinnyCache, ghost pre: Position, ghost m: Move)
    requires net.Valid() && cache.Valid() && cache.lanes == net.lanes
    requires cache.token == Some(net.token) ==> cache.built == net
    requires src.Length == net.lanes && dst.Length == net.lanes && src != dst
    requires src !in cache.Repr() && dst !in cache.Repr()
    requires Evaluable(pre) && Steppable(pre, m) && post == DoMove(pre, m) && delta == FromMove(pre, m)
    requires src[..] == FreshFor(net, pre, c)
    modifies dst, cache.Repr()
    ensures cache.Valid() && (cache.token == Some(net.token) ==> cache.built == net)
    ensures Evaluable(post) && dst[..] == FreshFor(net, post, c)
  {
    hide ActiveFeatures, FreshHalf, Sound, KingSquare, DeltaIn, DoMove, ColumnSum;
    EvaluableAfter(pre, m);
    match delta.Half(c)
    case Some(half) =>
      CopyInto(dst, src[..]);
      DeltaInRange(pre, m, c);
      HalfIsExact(pre, m, c);
      ApplyDiff(dst, net, half.added, half.removed);
      ActiveFeaturesInRange(pre, c);
      ActiveFeaturesInRange(post, c);
      PatchedIsFresh(net, ActiveFeatures(pre, c), half.removed, half.added, ActiveFeatures(post, c), dst[..]);
    case None =>
      cache.RefreshInto(net, post, c, dst);
  }

  method DeriveIntoCached(src: Accumulator, dst: Accumulator, net: Network, post: Position, delta: Delta,
                          cache: FinnyCache, ghost pre: Position, ghost m: Move)
    requires net.Valid() && cache.Valid() && cache.lanes == net.lanes
    requires cache.token == Some(net.token) ==> cache.built == net
    requires src.black.Length == src.white.Length == dst.black.Length == dst.white.Length == net.lanes
    requires src.Buffers() !! dst.Buffers() && dst.black != dst.white
    requires src.Buffers() !! cache.Repr() && dst.Buffers() !! cache.Repr()
    requires Evaluable(pre) && Steppable(pre, m) && post == DoMove(pre, m) && delta == FromMove(pre, m)
    requires src.Represents(net, pre)
    modifies dst.Buffers(), cache.Repr()
    ensures cache.Valid() && (cache.token == Some(net.token) ==> cache.built == net)
    ensures Evaluable(post) && dst.Represents(net, post)
  {
    hide FreshFor, Evaluable, DoMove, FromMove, Steppable;
    DeriveHalf(src.black, dst.black, net, post, delta, Black, cache, pre, m);
    DeriveHalf(src.white, dst.white, net, post, delta, White, cache, pre, m);
  }

  /** The accumulators of the current line.  `slots[depth]` is always the one for
      the position being searched. */
  class AccumulatorStack {
    const lanes: nat
    const slots: seq<Accumulator>
    const finny: FinnyCache
    var depth: nat
    var net: Network
    /** The positions the live slots stand for. */
    ghost var path: seq<Position>

    ghost function SlotBuffers(): set<object> {
      (set i | 0 <= i < |slots| :: slots[i].black) + (set i | 0 <= i < |slots| :: slots[i].white)
    }

    ghost function Repr(): set<object> {
      {this} + SlotBuffers() + finny.Repr()
    }

    ghost predicate Shape() {
      && |slots| == ACC_LEN
      && finny.lanes == lanes
      && this !in SlotBuffers() && this !in finny.Repr()
      && SlotBuffers() !! finny.Repr()
      && (forall i :: 0 <= i < |slots| ==>
            slots[i].black.Length == slots[i].white.Length == lanes && slots[i].black != slots[i].white)
      && (forall i, j :: 0 <= i < j < |slots| ==> slots[i].ApartFrom(slots[j]))
    }

    ghost predicate Valid()
      reads Repr()
    {
      && Shape()
      && net.Valid() && net.lanes == lanes
      && finny.Valid() && (finny.token == Some(net.token) ==> finny.built == net)
      && |path| == depth + 1 <= ACC_LEN
      && forall d :: 0 <= d <= depth ==> Evaluable(path[d]) && slots[d].Represents(net, path[d])
    }

    /** Zeroed slots and a cold cache; nothing is live before the first `Seed`. */
    constructor (net: Network)
      requires net.Valid()
      ensures Shape() && finny.Valid() && finny.token == None && lanes == net.lanes
      ensures fresh(Repr())
    {
      var cache := new FinnyCache(net.lanes, net);
      var accs: seq<Accumulator> := [];
      for n := 0 to ACC_LEN
        invariant |accs| == n
        invariant cache.Valid() && cache.token == None && cache.lanes == net.lanes && fresh(cache.Repr())
        invariant forall i :: 0 <= i < n ==>
          && fresh(accs[i].Buffers()) && accs[i].Buffers() !! cache.Repr() && accs[i].black != accs[i].white
          && accs[i].black.Length == accs[i].white.Length == net.lanes
        invariant forall i, j :: 0 <= i < j < n ==> accs[i].ApartFrom(accs[j])
      {
        var a := new Accumulator(net.lanes);
        accs := accs + [a];
      }
      lanes := net.lanes;
      slots := accs;
      finny := cache;
      depth := 0;
      this.net := net;
      path := [];
    }

    /** Full refresh of slot zero for a new root, possibly under another network.
        Only the cache's token tells the two networks apart. */
    method Seed(newNet: Network, root: Position)
      requires Shape() && finny.Valid()
      requires newNet.Valid() && newNet.lanes == lanes
      requires finny.token == Some(newNet.token) ==> finny.built == newNet
      requires Evaluable(root)
      modifies Repr()
      ensures Valid() && net == newNet && path == [root]
    {
      hide Evaluable, FreshFor, Accumulator.Represents, FinnyCache.Valid;
      SlotCount();
      SlotInside(0);
      SlotShape(0);
      depth := 0;
      slots[0].Refresh(newNet, root);
      net := newNet;
      path := [root];
    }

    /** Writes the child's slot and no other. */
    method DeriveNext(post: Position, delta: Delta, ghost m: Move)
      requires Valid() && depth + 1 < ACC_LEN
      requires Steppable(path[depth], m)
      requires post == DoMove(path[depth], m) && delta == FromMove(path[depth], m)
      modifies slots[depth + 1].Buffers(), finny.Repr()
      ensures finny.Valid() && (finny.token == Some(net.token) ==> finny.built == net)
      ensures net.Valid() && Evaluable(post) && slots[depth + 1].Represents(net, post)
      ensures |path| == depth + 1
      ensures forall k :: 0 <= k <= depth ==> Evaluable(path[k]) && slots[k].Represents(net, path[k])
    {
      hide FromMove, DoMove, Steppable, Evaluable, FreshFor, Accumulator.Represents;
      var d := depth;
      SlotInside(d);
      SlotInside(d + 1);
      ghost var line := path;
      forall k | 0 <= k <= d
        ensures slots[k].black !in slots[d + 1].Buffers() + finny.Repr()
                && slots[k].white !in slots[d + 1].Buffers() + finny.Repr()
      {
        SlotInside(k);
        assert slots[k].ApartFrom(slots[d + 1]);
      }
      DeriveIntoCached(slots[d], slots[d + 1], net, post, delta, finny, path[d], m);
      assert path == line;
    }

    /** Derives the child's slot; the parents' slots are not written. */
    method Push(post: Position, delta: Delta, ghost m: Move)
      requires Valid() && depth + 1 < ACC_LEN
      requires Steppable(path[depth], m)
      requires post == DoMove(path[depth], m) && delta == FromMove(path[depth], m)
      modifies Repr()
      ensures Valid() && net == old(net)
      ensures path == old(path) + [post] && depth == old(depth) + 1
    {
      SlotCount();
      hide FromMove, DoMove, Steppable, Evaluable, FreshFor, Accumulator.Represents, AccumulatorStack.Shape;
      SlotInside(depth + 1);
      DeriveNext(post, delta, m);
      Advance(post);
    }

    /** The child's slot becomes the live one. */
    method Advance(post: Position)
      requires Shape() && net.Valid() && net.lanes == lanes
      requires finny.Valid() && (finny.token == Some(net.token) ==> finny.built == net)
      requires |path| == depth + 1 < ACC_LEN
      requires forall k :: 0 <= k <= depth ==> Evaluable(path[k]) && slots[k].Represents(net, path[k])
      requires Evaluable(post) && slots[depth + 1].Represents(net, post)
      modifies this`depth, this`path
      ensures Valid() && net == old(net)
      ensures path == old(path) + [post] && depth == old(depth) + 1
    {
      hide Evaluable, FreshFor, Accumulator.Represents, AccumulatorStack.Shape, FinnyCache.Valid, FinnyCache.Repr,
           AccumulatorStack.SlotBuffers;
      SlotCount();
      LineExtended(post);
      path := path + [post];
      depth := depth + 1;
    }

    lemma LineExtended(post: Position)
      requires net.Valid() && |path| == depth + 1 < |slots|
      requires forall k :: 0 <= k <= depth ==> Evaluable(path[k]) && slots[k].Represents(net, path[k])
      requires Evaluable(post) && slots[depth + 1].Represents(net, post)
      ensures forall k :: 0 <= k <= depth + 1 ==>
        Evaluable((path + [post])[k]) && slots[k].Represents(net, (path + [post])[k])
    {}

    lemma SlotCount()
      requires Shape()
      ensures |slots| == ACC_LEN && finny.lanes == lanes && this !in SlotBuffers() && this !in finny.Repr()
    {}

    lemma SlotShape(i: nat)
      requires Shape() && i < |slots|
      ensures slots[i].black != slots[i].white && slots[i].black.Length == slots[i].white.Length == lanes
      ensures slots[i].Buffers() !! finny.Repr()
    {}

    lemma SlotInside(i: nat)
      requires i < |slots|
      ensures slots[i].Buffers() <= SlotBuffers()
    {}

    /** Dropping back to the parent needs no recomputation. */
    method Pop()
      requires Valid() && depth > 0
      modifies this
      ensures Valid() && net == old(net)
      ensures path == old(path)[..old(depth)] && depth == old(depth) - 1
    {
      depth := depth - 1;
      path := path[..depth + 1];
    }

    /** A null move touches no accumulator: the slot it started from already stands
        for the position with the turn passed, in both directions. */
    ghost method NullMove()
      requires Valid()
      modifies this`path
      ensures Valid() && path == old(path)[depth := DoNullMove(old(path)[depth])]
    {
      NullMoveKeepsHalves(net, path[depth], Black);
      NullMoveKeepsHalves(net, path[depth], White);
      hide FreshFor, Evaluable;
      path := path[depth := DoNullMove(path[depth])];
    }
  }
}
