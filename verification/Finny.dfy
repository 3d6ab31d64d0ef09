/** One refreshed accumulator half per perspective and king square, patched rather
    than rebuilt whenever the king comes back to that square. */
module Finny {
  import opened Wrappers
  import opened Shogi
  import opened Features
  import opened FeatureSpace
  import opened IndexDiff
  import opened Transformer

  class FinnyEntry {
    const accumulation: array<I16>
    var active: seq<Feature>
    var initialized: bool

    constructor (lanes: nat)
      ensures fresh(accumulation) && accumulation.Length == lanes && !initialized
    {
      accumulation := new I16[lanes](i => 0);
      active := [];
      initialized := false;
    }

    /** The module invariant: it mentions no position, only a feature list. */
    ghost predicate Holds(net: Network)
      requires net.Valid()
      reads this, accumulation
    {
      initialized ==> InRange(active) && accumulation[..] == FreshHalf(net, active)
    }
  }

  function Bucket(persp: Color, king: Square): (b: nat)
    ensures b < 2 * SQUARES
  {
    (if persp.Black? then 0 else SQUARES) + king
  }

  class FinnyCache {
    const lanes: nat
    const entries: seq<FinnyEntry>
    var token: Option<nat>
    /** The network the initialised entries were built from. */
    ghost var built: Network

    ghost function Buffers(): set<object> {
      set i | 0 <= i < |entries| :: entries[i].accumulation
    }

    ghost function Repr(): set<object> {
      {this} + (set i | 0 <= i < |entries| :: entries[i]) + Buffers()
    }

    /** Every bucket has its own entry and its own buffer. */
    ghost predicate Shape() {
      && |entries| == 2 * SQUARES
      && (forall i :: 0 <= i < |entries| ==> entries[i].accumulation.Length == lanes)
      && (forall i, j :: 0 <= i < j < |entries| ==> entries[i] != entries[j])
      && (forall i, j :: 0 <= i < j < |entries| ==> entries[i].accumulation != entries[j].accumulation)
    }

    ghost predicate Valid()
      reads Repr()
    {
      && Shape()
      && built.Valid() && built.lanes == lanes
      && forall i :: 0 <= i < |entries| ==> entries[i].Holds(built)
    }

    /** An empty cache belongs to no network yet: any network of the right width
        will do for `built`. */
    constructor (lanes: nat, ghost net: Network)
      requires net.Valid() && net.lanes == lanes
      ensures Valid() && this.lanes == lanes && built == net && token == None
      ensures forall i :: 0 <= i < |entries| ==> !entries[i].initialized
      ensures fresh(Repr())
    {
      var es: seq<FinnyEntry> := [];
      for n := 0 to 2 * SQUARES
        invariant |es| == n
        invariant forall i :: 0 <= i < n ==>
          fresh(es[i]) && fresh(es[i].accumulation) && es[i].accumulation.Length == lanes && !es[i].initialized
        invariant forall i, j :: 0 <= i < j < n ==> es[i] != es[j] && es[i].accumulation != es[j].accumulation
      {
        var e := new FinnyEntry(lanes);
        es := es + [e];
      }
      this.lanes := lanes;
      entries := es;
      token := None;
      built := net;
    }

    /** Drops every cached half; the lists and buffers stay as they are. */
    method Invalidate()
      requires Shape()
      modifies entries
      ensures forall i :: 0 <= i < |entries| ==> !entries[i].initialized
    {
      for n := 0 to |entries|
        invariant forall i :: 0 <= i < n ==> !entries[i].initialized
      {
        entries[n].initialized := false;
      }
    }

    /** Rebuilds `persp`'s half for `p` into `dst` through the cache.  Whatever
        unrelated position left the entry behind, and whichever network, the result
        is the from-scratch half.  Equal tokens are taken to mean equal weights. */
    method RefreshInto(net: Network, p: Position, persp: Color, dst: array<I16>)
      requires Valid() && net.Valid() && net.lanes == lanes
      requires token == Some(net.token) ==> built == net
      requires Sound(p) && KingSquare(p, persp).Some?
      requires dst.Length == lanes && dst !in Repr()
      modifies Repr(), dst
      ensures Valid() && built == net && token == Some(net.token)
      ensures InRange(ActiveFeatures(p, persp))
      ensures dst[..] == FreshHalf(net, ActiveFeatures(p, persp))
    {
      hide ActiveFeatures, FreshHalf, ColumnSum, Sound, KingSquare;
      if token != Some(net.token) {
        Invalidate();
        token := Some(net.token);
        built := net;
      }
      var bucket := Bucket(persp, KingSquare(p, persp).value);
      var active := ActiveFeaturesInto(p, persp);
      ActiveFeaturesInRange(p, persp);
      var entry := entries[bucket];
      RebuildEntry(entry, net, active);
      CopyInto(dst, entry.accumulation[..]);
    }
  }

  lemma ActiveFeaturesInRange(p: Position, persp: Color)
    requires Sound(p) && KingSquare(p, persp).Some?
    ensures InRange(ActiveFeatures(p, persp))
  {
    hide ActiveFeatures, Sound, KingSquare;
    ActiveFeaturesShape(p, persp);
    forall i | 0 <= i < |ActiveFeatures(p, persp)|
      ensures ActiveFeatures(p, persp)[i] < FEATURE_DIMENSION
    {
      assert ActiveFeatures(p, persp)[i] in ActiveFeatures(p, persp);
    }
  }

  /** Brings one entry up to date with `active`. */
  method RebuildEntry(entry: FinnyEntry, net: Network, active: seq<Feature>)
    requires net.Valid() && entry.accumulation.Length == net.lanes && InRange(active)
    requires entry.Holds(net)
    modifies entry, entry.accumulation
    ensures entry.Holds(net) && entry.initialized && entry.active == active
    ensures entry.accumulation[..] == FreshHalf(net, active)
  {
    hide FreshHalf, ColumnSum;
    if entry.initialized {
      var removed, added := ChangedIndices(entry.active, active);
      DiffInRange(entry.active, active, removed, added);
      ghost var before := entry.accumulation[..];
      ApplyDiff(entry.accumulation, net, added, removed);
      DiffIsExchange(multiset(entry.active), multiset(active));
      PatchedIsFresh(net, entry.active, removed, added, active, entry.accumulation[..]);
    } else {
      RefreshPerspective(entry.accumulation, net, active);
      entry.initialized := true;
    }
    entry.active := active;
  }

  lemma DiffIsExchange(before: multiset<Feature>, after: multiset<Feature>)
    ensures before - after <= before
    ensures before - (before - after) + (after - before) == after
  {}

  lemma DiffInRange(before: seq<Feature>, after: seq<Feature>, removed: seq<Feature>, added: seq<Feature>)
    requires InRange(before) && InRange(after)
    requires multiset(removed) == multiset(before) - multiset(after)
    requires multiset(added) == multiset(after) - multiset(before)
    ensures InRange(removed) && InRange(added)
  {
    forall i | 0 <= i < |removed|
      ensures removed[i] < FEATURE_DIMENSION
    {
      assert removed[i] in multiset(removed);
      assert removed[i] in before;
    }
    forall i | 0 <= i < |added|
      ensures added[i] < FEATURE_DIMENSION
    {
      assert added[i] in multiset(added);
      assert added[i] in after;
    }
  }
}
