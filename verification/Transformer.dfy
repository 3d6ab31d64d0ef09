/** The feature transformer in wrapping 16-bit arithmetic: one half of an
    accumulator is the bias vector plus the weight column of every active feature.
    The kernels work in place; their contracts say what they leave in each lane in
    terms of the unbounded column sum, wrapped once at the end. */
module Transformer {
  import opened Features

  type I16 = x: int | -0x8000 <= x < 0x8000

  function Wrap(x: int): I16 {
    (x + 0x8000) % 0x10000 - 0x8000
  }

  /** A loaded network; `weights` is row-major, `[feature][lane]`. */
  datatype Network = Network(token: nat, lanes: nat, biases: seq<I16>, weights: seq<I16>) {
    ghost predicate Valid() {
      |biases| == lanes && |weights| == FEATURE_DIMENSION * lanes
    }
  }

  predicate InRange(fs: seq<Feature>) {
    forall i :: 0 <= i < |fs| ==> fs[i] < FEATURE_DIMENSION
  }

  lemma ColumnFits(lanes: nat, f: Feature, lane: nat)
    requires f < FEATURE_DIMENSION && lane < lanes
    ensures 0 <= f * lanes + lane < FEATURE_DIMENSION * lanes
  {
    assert f * lanes + lanes == (f + 1) * lanes;
    assert (f + 1) * lanes <= FEATURE_DIMENSION * lanes;
  }

  function Weight(net: Network, f: Feature, lane: nat): I16
    requires net.Valid() && f < FEATURE_DIMENSION && lane < net.lanes
  {
    ColumnFits(net.lanes, f, lane);
    net.weights[f * net.lanes + lane]
  }

  ghost function ColumnSum(net: Network, fs: seq<Feature>, lane: nat): int
    requires net.Valid() && InRange(fs) && lane < net.lanes
  {
    if fs == [] then 0 else ColumnSum(net, fs[..|fs| - 1], lane) + Weight(net, fs[|fs| - 1], lane)
  }

  /** Biases plus columns: the slow definition every fast form must agree with. */
  ghost function FreshHalf(net: Network, fs: seq<Feature>): (r: seq<I16>)
    requires net.Valid() && InRange(fs)
    ensures |r| == net.lanes
    ensures forall l :: 0 <= l < net.lanes ==> r[l] == Wrap(net.biases[l] + ColumnSum(net, fs, l))
  {
    seq(net.lanes, l requires 0 <= l < net.lanes => Wrap(net.biases[l] + ColumnSum(net, fs, l)))
  }

  // ----- sums of columns -----

  /** The weights of one feature stand together, lane by lane. */
  lemma Rows(net: Network, f: Feature, l: nat)
    requires net.Valid() && f < FEATURE_DIMENSION && l < net.lanes
    ensures net.lanes * f + net.lanes <= |net.weights|
    ensures net.weights[net.lanes * f..net.lanes * f + net.lanes][l] == Weight(net, f, l)
  {
    assert net.lanes * (f + 1) <= net.lanes * FEATURE_DIMENSION;
  }

  lemma WrapAbsorbs(a: int, b: int)
    ensures Wrap(Wrap(a) + b) == Wrap(a + b)
  {}

  lemma WrapAbsorbsMinus(a: int, b: int)
    ensures Wrap(Wrap(a) - b) == Wrap(a - b)
  {}

  lemma WrapIdentity(x: I16)
    ensures Wrap(x) == x
  {}

  lemma {:induction false} SumConcat(net: Network, a: seq<Feature>, b: seq<Feature>, lane: nat)
    requires net.Valid() && InRange(a) && InRange(b) && lane < net.lanes
    ensures ColumnSum(net, a + b, lane) == ColumnSum(net, a, lane) + ColumnSum(net, b, lane)
  {
    if b == [] {
      assert a + b == a;
    } else {
      assert (a + b)[..|a + b| - 1] == a + b[..|b| - 1];
      SumConcat(net, a, b[..|b| - 1], lane);
    }
  }

  function Without(s: seq<Feature>, i: nat): (r: seq<Feature>)
    requires i < |s|
    ensures |r| == |s| - 1
    ensures multiset(r) == multiset(s) - multiset{s[i]}
  {
    assert s == s[..i] + [s[i]] + s[i + 1..];
    s[..i] + s[i + 1..]
  }

  lemma SumWithout(net: Network, s: seq<Feature>, i: nat, lane: nat)
    requires net.Valid() && InRange(s) && lane < net.lanes && i < |s|
    ensures ColumnSum(net, s, lane) == ColumnSum(net, Without(s, i), lane) + Weight(net, s[i], lane)
  {
    hide Weight;
    assert s == s[..i] + [s[i]] + s[i + 1..];
    SumConcat(net, s[..i] + [s[i]], s[i + 1..], lane);
    SumConcat(net, s[..i], [s[i]], lane);
    SumConcat(net, s[..i], s[i + 1..], lane);
    assert [s[i]][..0] == [];
  }

  /** The sum depends only on which columns occur how often. */
  lemma {:induction false} SumOfBag(net: Network, a: seq<Feature>, b: seq<Feature>, lane: nat)
    requires net.Valid() && InRange(a) && InRange(b) && lane < net.lanes
    requires multiset(a) == multiset(b)
    ensures ColumnSum(net, a, lane) == ColumnSum(net, b, lane)
    decreases |a|
  {
    hide Weight, ColumnSum;
    if a == [] {
      assert |multiset(b)| == 0;
      assert b == [];
    } else {
      var n := |a| - 1;
      assert a[n] in multiset(b);
      var i :| 0 <= i < |b| && b[i] == a[n];
      SumWithout(net, a, n, lane);
      SumWithout(net, b, i, lane);
      SumOfBag(net, Without(a, n), Without(b, i), lane);
    }
  }

  /** Exchanging columns exchanges their contributions. */
  lemma SumExchange(net: Network, before: seq<Feature>, removed: seq<Feature>, added: seq<Feature>,
                    after: seq<Feature>, lane: nat)
    requires net.Valid() && InRange(before) && InRange(removed) && InRange(added) && InRange(after)
    requires lane < net.lanes
    requires multiset(removed) <= multiset(before)
    requires multiset(before) - multiset(removed) + multiset(added) == multiset(after)
    ensures ColumnSum(net, after, lane)
         == ColumnSum(net, before, lane) + ColumnSum(net, added, lane) - ColumnSum(net, removed, lane)
  {
    assert multiset(after + removed) == multiset(before + added);
    SumOfBag(net, after + removed, before + added, lane);
    SumConcat(net, after, removed, lane);
    SumConcat(net, before, added, lane);
  }

  // ----- the kernels -----

  method AddColumn(out: array<I16>, net: Network, f: Feature)
    requires net.Valid() && out.Length == net.lanes && f < FEATURE_DIMENSION
    modifies out
    ensures forall l :: 0 <= l < net.lanes ==> out[l] == Wrap(old(out[l]) + Weight(net, f, l))
  {
    for l := 0 to net.lanes
      invariant forall k :: 0 <= k < l ==> out[k] == Wrap(old(out[k]) + Weight(net, f, k))
      invariant forall k :: l <= k < net.lanes ==> out[k] == old(out[k])
    {
      out[l] := Wrap(out[l] + Weight(net, f, l));
    }
  }

  method SubColumn(out: array<I16>, net: Network, f: Feature)
    requires net.Valid() && out.Length == net.lanes && f < FEATURE_DIMENSION
    modifies out
    ensures forall l :: 0 <= l < net.lanes ==> out[l] == Wrap(old(out[l]) - Weight(net, f, l))
  {
    for l := 0 to net.lanes
      invariant forall k :: 0 <= k < l ==> out[k] == Wrap(old(out[k]) - Weight(net, f, k))
      invariant forall k :: l <= k < net.lanes ==> out[k] == old(out[k])
    {
      out[l] := Wrap(out[l] - Weight(net, f, l));
    }
  }

  method AddFeatures(out: array<I16>, net: Network, indices: seq<Feature>)
    requires net.Valid() && out.Length == net.lanes && InRange(indices)
    modifies out
    ensures forall l :: 0 <= l < net.lanes ==> out[l] == Wrap(old(out[l]) + ColumnSum(net, indices, l))
  {
    hide Wrap, Weight;
    forall l | 0 <= l < net.lanes
      ensures out[l] == Wrap(out[l] + ColumnSum(net, indices[..0], l))
    {
      WrapIdentity(out[l]);
    }
    for i := 0 to |indices|
      invariant forall l :: 0 <= l < net.lanes ==> out[l] == Wrap(old(out[l]) + ColumnSum(net, indices[..i], l))
    {
      AddColumn(out, net, indices[i]);
      assert indices[..i + 1][..i] == indices[..i];
      forall l | 0 <= l < net.lanes
        ensures out[l] == Wrap(old(out[l]) + ColumnSum(net, indices[..i + 1], l))
      {
        WrapAbsorbs(old(out[l]) + ColumnSum(net, indices[..i], l), Weight(net, indices[i], l));
      }
    }
    assert indices[..|indices|] == indices;
  }

  method SubFeatures(out: array<I16>, net: Network, indices: seq<Feature>)
    requires net.Valid() && out.Length == net.lanes && InRange(indices)
    modifies out
    ensures forall l :: 0 <= l < net.lanes ==> out[l] == Wrap(old(out[l]) - ColumnSum(net, indices, l))
  {
    hide Wrap, Weight;
    forall l | 0 <= l < net.lanes
      ensures out[l] == Wrap(out[l] - ColumnSum(net, indices[..0], l))
    {
      WrapIdentity(out[l]);
    }
    for i := 0 to |indices|
      invariant forall l :: 0 <= l < net.lanes ==> out[l] == Wrap(old(out[l]) - ColumnSum(net, indices[..i], l))
    {
      SubColumn(out, net, indices[i]);
      assert indices[..i + 1][..i] == indices[..i];
      forall l | 0 <= l < net.lanes
        ensures out[l] == Wrap(old(out[l]) - ColumnSum(net, indices[..i + 1], l))
      {
        WrapAbsorbsMinus(old(out[l]) - ColumnSum(net, indices[..i], l), Weight(net, indices[i], l));
      }
    }
    assert indices[..|indices|] == indices;
  }

  /** The fused kernel for one added and one or two removed columns: one pass over
      the lanes. */
  method FusedAddSub(out: array<I16>, net: Network, added: Feature, removed: seq<Feature>)
    requires net.Valid() && out.Length == net.lanes && added < FEATURE_DIMENSION
    requires 1 <= |removed| <= 2 && InRange(removed)
    modifies out
    ensures forall l :: 0 <= l < net.lanes ==>
      out[l] == Wrap(old(out[l]) + ColumnSum(net, [added], l) - ColumnSum(net, removed, l))
  {
    hide Wrap, Weight;
    for l := 0 to net.lanes
      invariant forall k :: 0 <= k < l ==>
        out[k] == Wrap(old(out[k]) + ColumnSum(net, [added], k) - ColumnSum(net, removed, k))
      invariant forall k :: l <= k < net.lanes ==> out[k] == old(out[k])
    {
      var acc: I16 := Wrap(out[l] + Weight(net, added, l));
      acc := Wrap(acc - Weight(net, removed[0], l));
      WrapAbsorbsMinus(out[l] + Weight(net, added, l), Weight(net, removed[0], l));
      if |removed| == 2 {
        acc := Wrap(acc - Weight(net, removed[1], l));
        WrapAbsorbsMinus(out[l] + Weight(net, added, l) - Weight(net, removed[0], l), Weight(net, removed[1], l));
      }
      SmallSums(net, added, removed, l);
      out[l] := acc;
    }
  }

  lemma SmallSums(net: Network, added: Feature, removed: seq<Feature>, l: nat)
    requires net.Valid() && added < FEATURE_DIMENSION && l < net.lanes
    requires 1 <= |removed| <= 2 && InRange(removed)
    ensures ColumnSum(net, [added], l) == Weight(net, added, l)
    ensures ColumnSum(net, removed, l)
         == Weight(net, removed[0], l) + if |removed| == 2 then Weight(net, removed[1], l) else 0
  {
    assert [added][..0] == [];
    assert removed[..1][..0] == [];
    if |removed| == 2 {
      assert ColumnSum(net, removed[..1], l) == Weight(net, removed[0], l);
    }
  }

  method ApplyDiff(out: array<I16>, net: Network, added: seq<Feature>, removed: seq<Feature>)
    requires net.Valid() && out.Length == net.lanes && InRange(added) && InRange(removed)
    modifies out
    ensures forall l :: 0 <= l < net.lanes ==>
      out[l] == Wrap(old(out[l]) + ColumnSum(net, added, l) - ColumnSum(net, removed, l))
  {
    hide Wrap, Weight;
    if |added| == 1 && (|removed| == 1 || |removed| == 2) {
      assert added == [added[0]];
      FusedAddSub(out, net, added[0], removed);
    } else {
      SubFeatures(out, net, removed);
      AddFeatures(out, net, added);
      forall l | 0 <= l < net.lanes
        ensures out[l] == Wrap(old(out[l]) + ColumnSum(net, added, l) - ColumnSum(net, removed, l))
      {
        WrapAbsorbs(old(out[l]) - ColumnSum(net, removed, l), ColumnSum(net, added, l));
      }
    }
  }

  method RefreshPerspective(out: array<I16>, net: Network, indices: seq<Feature>)
    requires net.Valid() && out.Length == net.lanes && InRange(indices)
    modifies out
    ensures out[..] == FreshHalf(net, indices)
  {
    hide Wrap, Weight;
    CopyInto(out, net.biases);
    AddFeatures(out, net, indices);
  }

  method CopyInto(dst: array<I16>, src: seq<I16>)
    requires dst.Length == |src|
    modifies dst
    ensures dst[..] == src
  {
    for i := 0 to |src|
      invariant dst[..i] == src[..i]
    {
      dst[i] := src[i];
    }
  }

  /** A fresh half, patched by a delta between two feature lists, is the fresh half
      of the second list, lane by lane. */
  lemma PatchedIsFresh(net: Network, before: seq<Feature>, removed: seq<Feature>, added: seq<Feature>,
                       after: seq<Feature>, patched: seq<I16>)
    requires net.Valid() && InRange(before) && InRange(removed) && InRange(added) && InRange(after)
    requires multiset(removed) <= multiset(before)
    requires multiset(before) - multiset(removed) + multiset(added) == multiset(after)
    requires |patched| == net.lanes
    requires forall l :: 0 <= l < net.lanes ==>
      patched[l] == Wrap(FreshHalf(net, before)[l] + ColumnSum(net, added, l) - ColumnSum(net, removed, l))
    ensures patched == FreshHalf(net, after)
  {
    hide Wrap, Weight;
    forall l | 0 <= l < net.lanes
      ensures patched[l] == FreshHalf(net, after)[l]
    {
      SumExchange(net, before, removed, added, after, l);
      WrapAbsorbs(net.biases[l] + ColumnSum(net, before, l),
                  ColumnSum(net, added, l) - ColumnSum(net, removed, l));
    }
  }
}
