/** The weighted choice among book moves: one pass over the candidates, one draw for each.
    Counting all draws shows that each candidate is chosen in proportion to its count. */
module BookPick {
  function Sum(w: seq<nat>): nat {
    if w == [] then 0 else Sum(w[..|w| - 1]) + w[|w| - 1]
  }

  /** With no adoption counts at all every candidate weighs the same. */
  function Weights(counts: seq<nat>): (w: seq<nat>)
    ensures |w| == |counts|
  {
    if Sum(counts) == 0 then seq(|counts|, _ => 1) else counts
  }

  /** The draws of a pass: below the weight seen so far, or the one dummy draw while that
      is still zero. */
  ghost predicate Draw(w: seq<nat>, v: seq<nat>) {
    |v| == |w| && forall k :: 0 <= k < |w| ==> v[k] < Span(w, k)
  }

  function Span(w: seq<nat>, k: nat): nat
    requires k < |w|
  {
    var acc := Sum(w[..k + 1]);
    if acc == 0 then 1 else acc
  }

  /** The last candidate whose draw fell inside its own weight. */
  function Pick(w: seq<nat>, v: seq<nat>, baseline: nat): (i: nat)
    requires |v| == |w|
  {
    if w == [] then baseline
    else
      var n := |w| - 1;
      if Sum(w) != 0 && v[n] < w[n] then n else Pick(w[..n], v[..n], baseline)
  }

  lemma SumPrefix(w: seq<nat>, k: nat)
    requires k < |w|
    ensures Sum(w[..k + 1]) == Sum(w[..k]) + w[k]
  {
    assert w[..k + 1][..k] == w[..k];
  }

  /** The pass itself: a uniform choice first, then replaced along the way. */
  method WeightedPick(counts: seq<nat>, baseline: nat, draws: seq<nat>) returns (best: nat)
    requires |draws| == |counts|
    ensures best == Pick(Weights(counts), draws, baseline)
  {
    best := baseline;
    var acc: nat := 0;
    ghost var w := Weights(counts);
    var sum := TotalOf(counts);
    for k := 0 to |counts|
      invariant acc == Sum(w[..k])
      invariant best == Pick(w[..k], draws[..k], baseline)
    {
      var weight := if sum == 0 then 1 else counts[k];
      SumPrefix(w, k);
      acc := acc + weight;
      assert w[..k + 1][..k] == w[..k] && draws[..k + 1][..k] == draws[..k];
      if acc != 0 && draws[k] < weight {
        best := k;
      }
    }
    assert w[..|counts|] == w && draws[..|counts|] == draws;
  }

  method TotalOf(counts: seq<nat>) returns (sum: nat)
    ensures sum == Sum(counts)
  {
    sum := 0;
    for k := 0 to |counts|
      invariant sum == Sum(counts[..k])
    {
      SumPrefix(counts, k);
      sum := sum + counts[k];
    }
    assert counts[..|counts|] == counts;
  }

  // ----- all draws -----

  function Cases(v: seq<nat>, t: nat): (r: seq<seq<nat>>)
    ensures |r| == t
  {
    if t == 0 then [] else Cases(v, t - 1) + [v + [t - 1]]
  }

  function Extend(l: seq<seq<nat>>, t: nat): (r: seq<seq<nat>>)
    ensures |r| == |l| * t
  {
    if l == [] then [] else Extend(l[..|l| - 1], t) + Cases(l[|l| - 1], t)
  }

  function Draws(w: seq<nat>): seq<seq<nat>> {
    if w == [] then [[]] else Extend(Draws(w[..|w| - 1]), Span(w, |w| - 1))
  }

  lemma {:induction false} InCases(v: seq<nat>, t: nat, u: seq<nat>)
    ensures u in Cases(v, t) <==> |u| == |v| + 1 && u[..|v|] == v && u[|v|] < t
  {
    if t > 0 {
      InCases(v, t - 1, u);
      if |u| == |v| + 1 && u[..|v|] == v && u[|v|] == t - 1 {
        assert u == v + [t - 1];
      }
    }
  }

  lemma {:induction false} InExtend(l: seq<seq<nat>>, t: nat, u: seq<nat>)
    ensures u in Extend(l, t) <==> u != [] && u[..|u| - 1] in l && u[|u| - 1] < t
  {
    if l != [] {
      var n := |l| - 1;
      InExtend(l[..n], t, u);
      InCases(l[n], t, u);
      assert l == l[..n] + [l[n]];
      hide Extend, Cases;
      ExtendLast(l, t);
    }
  }

  lemma ExtendLast(l: seq<seq<nat>>, t: nat)
    requires l != []
    ensures Extend(l, t) == Extend(l[..|l| - 1], t) + Cases(l[|l| - 1], t)
  {}

  /** The list holds the draws of the pass, all of them. */
  lemma {:induction false} DrawsAreAll(w: seq<nat>, v: seq<nat>)
    ensures v in Draws(w) <==> Draw(w, v)
  {
    if w == [] {
    } else {
      var n := |w| - 1;
      InExtend(Draws(w[..n]), Span(w, n), v);
      if v != [] {
        DrawsAreAll(w[..n], v[..|v| - 1]);
        DrawLast(w, v);
      }
    }
  }

  lemma DrawLast(w: seq<nat>, v: seq<nat>)
    requires w != [] && v != []
    ensures Draw(w, v) <==> Draw(w[..|w| - 1], v[..|v| - 1]) && v[|v| - 1] < Span(w, |w| - 1)
  {
    var n := |w| - 1;
    if |v| == |w| {
      forall k | 0 <= k < n
        ensures Span(w[..n], k) == Span(w, k)
      {
        assert w[..n][..k + 1] == w[..k + 1];
      }
    }
  }

  ghost predicate Distinct(l: seq<seq<nat>>) {
    forall a, b :: 0 <= a < b < |l| ==> l[a] != l[b]
  }

  lemma DistinctConcat(a: seq<seq<nat>>, b: seq<seq<nat>>)
    requires Distinct(a) && Distinct(b) && forall v :: v in a ==> v !in b
    ensures Distinct(a + b)
  {
    forall i, j | 0 <= i < j < |a + b|
      ensures (a + b)[i] != (a + b)[j]
    {
      if i < |a| <= j {
        assert a[i] in a && b[j - |a|] in b;
      }
    }
  }

  lemma {:induction false} CasesDistinct(v: seq<nat>, t: nat)
    ensures Distinct(Cases(v, t))
  {
    if t > 0 {
      CasesDistinct(v, t - 1);
      InCases(v, t - 1, v + [t - 1]);
      DistinctConcat(Cases(v, t - 1), [v + [t - 1]]);
    }
  }

  lemma {:induction false} ExtendDistinct(l: seq<seq<nat>>, t: nat)
    requires Distinct(l)
    ensures Distinct(Extend(l, t))
  {
    if l != [] {
      var n := |l| - 1;
      ExtendDistinct(l[..n], t);
      CasesDistinct(l[n], t);
      forall v | v in Extend(l[..n], t)
        ensures v !in Cases(l[n], t)
      {
        InExtend(l[..n], t, v);
        InCases(l[n], t, v);
      }
      hide Extend, Cases;
      ExtendLast(l, t);
      DistinctConcat(Extend(l[..n], t), Cases(l[n], t));
    }
  }

  /** Each draw is listed once. */
  lemma {:induction false} DrawsDistinct(w: seq<nat>)
    ensures Distinct(Draws(w))
  {
    if w != [] {
      DrawsDistinct(w[..|w| - 1]);
      ExtendDistinct(Draws(w[..|w| - 1]), Span(w, |w| - 1));
    }
  }

  // ----- counting -----

  /** How many of the listed draws end on candidate `i`. */
  function Ending(w: seq<nat>, l: seq<seq<nat>>, i: nat, baseline: nat): nat {
    if l == [] then 0 else Ending(w, l[..|l| - 1], i, baseline) + EndsOn(w, l[|l| - 1], i, baseline)
  }

  function EndsOn(w: seq<nat>, v: seq<nat>, i: nat, baseline: nat): nat {
    if |v| == |w| && Pick(w, v, baseline) == i then 1 else 0
  }

  lemma {:induction false} EndingConcat(w: seq<nat>, a: seq<seq<nat>>, b: seq<seq<nat>>, i: nat, baseline: nat)
    ensures Ending(w, a + b, i, baseline) == Ending(w, a, i, baseline) + Ending(w, b, i, baseline)
  {
    hide EndsOn;
    if b == [] {
      assert a + b == a;
    } else {
      assert (a + b)[..|a + b| - 1] == a + b[..|b| - 1];
      EndingConcat(w, a, b[..|b| - 1], i, baseline);
    }
  }

  function Min(a: nat, b: nat): nat {
    if a <= b then a else b
  }

  function If(b: bool, n: int): int {
    if b then n else 0
  }

  /** A draw inside the last weight takes the last candidate; any other leaves the choice. */
  lemma {:induction false} EndingCases(w: seq<nat>, v: seq<nat>, t: nat, i: nat, baseline: nat)
    requires w != [] && |v| == |w| - 1 && Sum(w) != 0
    ensures Ending(w, Cases(v, t), i, baseline)
         == If(i == |w| - 1, Min(t, w[|w| - 1])) + EndsOn(w[..|w| - 1], v, i, baseline) * (t - Min(t, w[|w| - 1]))
  {
    hide Ending, EndsOn, Cases, Sum;
    if t > 0 {
      var last := v + [t - 1];
      EndingCases(w, v, t - 1, i, baseline);
      CasesLast(v, t);
      EndingConcat(w, Cases(v, t - 1), [last], i, baseline);
      EndingOne(w, last, i, baseline);
      EndsOnLast(w, v, t - 1, i, baseline);
      Spread(0, 0, t - 1 - Min(t - 1, w[|w| - 1]), 1, EndsOn(w[..|w| - 1], v, i, baseline));
    } else {
      CasesNone(v);
      EndingNone(w, i, baseline);
    }
  }

  lemma CasesNone(v: seq<nat>)
    ensures Cases(v, 0) == []
  {}

  lemma EndingNone(w: seq<nat>, i: nat, baseline: nat)
    ensures Ending(w, [], i, baseline) == 0
  {}

  lemma EndsOnLast(w: seq<nat>, v: seq<nat>, r: nat, i: nat, baseline: nat)
    requires w != [] && |v| == |w| - 1 && Sum(w) != 0
    ensures EndsOn(w, v + [r], i, baseline)
         == if r < w[|w| - 1] then If(i == |w| - 1, 1) else EndsOn(w[..|w| - 1], v, i, baseline)
  {
    PickLast(w, v, r, baseline);
  }

  lemma CasesLast(v: seq<nat>, t: nat)
    requires t > 0
    ensures Cases(v, t) == Cases(v, t - 1) + [v + [t - 1]]
  {}

  lemma PickLast(w: seq<nat>, v: seq<nat>, r: nat, baseline: nat)
    requires w != [] && |v| == |w| - 1 && Sum(w) != 0
    ensures Pick(w, v + [r], baseline) == if r < w[|w| - 1] then |w| - 1 else Pick(w[..|w| - 1], v, baseline)
  {
    assert (v + [r])[..|v|] == v;
  }

  lemma EndingOne(w: seq<nat>, v: seq<nat>, i: nat, baseline: nat)
    ensures Ending(w, [v], i, baseline) == EndsOn(w, v, i, baseline)
  {
    assert [v][..0] == [];
  }

  lemma {:induction false} EndingExtend(w: seq<nat>, l: seq<seq<nat>>, t: nat, i: nat, baseline: nat)
    requires w != [] && Sum(w) != 0 && w[|w| - 1] <= t
    requires forall k :: 0 <= k < |l| ==> |l[k]| == |w| - 1
    ensures Ending(w, Extend(l, t), i, baseline)
         == If(i == |w| - 1, w[|w| - 1] * |l|) + Ending(w[..|w| - 1], l, i, baseline) * (t - w[|w| - 1])
  {
    hide Ending, EndsOn, Cases, Extend, Sum;
    if l != [] {
      var n := |l| - 1;
      EndingExtend(w, l[..n], t, i, baseline);
      EndingCases(w, l[n], t, i, baseline);
      ExtendLast(l, t);
      EndingStep(w[..|w| - 1], l, i, baseline);
      EndingConcat(w, Extend(l[..n], t), Cases(l[n], t), i, baseline);
      Spread(w[|w| - 1], n, Ending(w[..|w| - 1], l[..n], i, baseline), EndsOn(w[..|w| - 1], l[n], i, baseline),
             t - w[|w| - 1]);
    } else {
      ExtendNone(t);
      EndingNone(w, i, baseline);
      EndingNone(w[..|w| - 1], i, baseline);
    }
  }

  lemma ExtendNone(t: nat)
    ensures Extend([], t) == []
  {}

  lemma EndingStep(w: seq<nat>, l: seq<seq<nat>>, i: nat, baseline: nat)
    requires l != []
    ensures Ending(w, l, i, baseline) == Ending(w, l[..|l| - 1], i, baseline) + EndsOn(w, l[|l| - 1], i, baseline)
  {}

  lemma Spread(x: int, n: int, before: int, hit: int, k: int)
    ensures x * (n + 1) == x * n + x
    ensures (before + hit) * k == before * k + hit * k
    ensures hit == 1 ==> hit * k == k
    ensures hit == 0 ==> hit * k == 0
  {}

  lemma {:induction false} PickIsCandidate(w: seq<nat>, v: seq<nat>, baseline: nat)
    requires Draw(w, v) && Sum(w) != 0
    ensures Pick(w, v, baseline) < |w|
  {
    var n := |w| - 1;
    if v[n] >= w[n] {
      assert w[..n + 1] == w;
      DrawLast(w, v);
      PickIsCandidate(w[..n], v[..n], baseline);
    }
  }

  lemma {:induction false} NoneEnding(w: seq<nat>, l: seq<seq<nat>>, i: nat, baseline: nat)
    requires forall k :: 0 <= k < |l| ==> EndsOn(w, l[k], i, baseline) == 0
    ensures Ending(w, l, i, baseline) == 0
  {
    hide EndsOn;
    if l != [] {
      NoneEnding(w, l[..|l| - 1], i, baseline);
    }
  }

  lemma DrawsFit(w: seq<nat>)
    ensures forall k :: 0 <= k < |Draws(w)| ==> Draw(w, Draws(w)[k])
  {
    var l := Draws(w);
    forall k | 0 <= k < |l|
      ensures Draw(w, l[k])
    {
      assert l[k] in l;
      DrawsAreAll(w, l[k]);
    }
  }

  lemma {:induction false} ZeroSum(w: seq<nat>, i: nat)
    requires i < |w| && Sum(w) == 0
    ensures w[i] == 0
  {
    if i < |w| - 1 {
      ZeroSum(w[..|w| - 1], i);
    }
  }

  /** Among all draws the share that ends on a candidate is the share of its weight. */
  lemma {:induction false} Unbiased(w: seq<nat>, i: nat, baseline: nat)
    requires i < |w| && Sum(w) != 0
    ensures Ending(w, Draws(w), i, baseline) * Sum(w) == w[i] * |Draws(w)|
  {
    hide Ending, Draws, Sum, Extend, EndsOn, If;
    var n := |w| - 1;
    var front, x, d := w[..n], w[n], Draws(w[..n]);
    DrawsStep(w);
    DrawsFit(front);
    EndingExtend(w, d, Sum(w), i, baseline);
    var before := Ending(front, d, i, baseline);
    if Sum(front) == 0 {
      if i < n {
        ZeroSum(front, i);
      }
    } else if i < n {
      Unbiased(front, i, baseline);
    } else {
      NeverBeyond(front, i, baseline);
    }
    var wi := if i < n then front[i] else 0;
    assert before * Sum(front) == wi * |d|;
    Proportion(Ending(w, Draws(w), i, baseline), before, Sum(front), |d|, x, wi, i == n, Sum(w));
  }

  lemma DrawsStep(w: seq<nat>)
    requires w != [] && Sum(w) != 0
    ensures Sum(w) == Sum(w[..|w| - 1]) + w[|w| - 1]
    ensures Draws(w) == Extend(Draws(w[..|w| - 1]), Sum(w)) && |Draws(w)| == |Draws(w[..|w| - 1])| * Sum(w)
  {
    assert w[..|w| - 1 + 1] == w;
  }

  /** Once some weight has been seen the choice is among the candidates. */
  lemma NeverBeyond(w: seq<nat>, i: nat, baseline: nat)
    requires Sum(w) != 0 && i >= |w|
    ensures Ending(w, Draws(w), i, baseline) == 0
  {
    var l := Draws(w);
    DrawsFit(w);
    forall k | 0 <= k < |l|
      ensures EndsOn(w, l[k], i, baseline) == 0
    {
      PickIsCandidate(w, l[k], baseline);
    }
    hide EndsOn, Draws;
    NoneEnding(w, l, i, baseline);
  }

  lemma Proportion(e: int, before: int, s: int, d: int, x: int, wi: int, last: bool, t: int)
    requires t == s + x && e == If(last, x * d) + before * (t - x)
    requires before * s == wi * d
    requires last ==> wi == 0
    ensures e * t == (if last then x else wi) * (d * t)
  {
    var w := if last then x else wi;
    assert e == w * d;
    assert (w * d) * t == w * (d * t);
  }

  /** With counts: the choice is proportional to them, a candidate without a count is never
      chosen beside one that has a count, and with no counts at all the choice is uniform. */
  lemma ChoiceFollowsCounts(counts: seq<nat>, i: nat, baseline: nat)
    requires i < |counts|
    ensures Sum(counts) != 0 ==>
      Ending(counts, Draws(counts), i, baseline) * Sum(counts) == counts[i] * |Draws(counts)|
    ensures Sum(counts) != 0 && counts[i] == 0 ==> Ending(counts, Draws(counts), i, baseline) == 0
    ensures Sum(counts) == 0 ==>
      Ending(Weights(counts), Draws(Weights(counts)), i, baseline) * |counts| == |Draws(Weights(counts))|
  {
    var w := Weights(counts);
    if Sum(counts) == 0 {
      SumOfOnes(w);
    }
    Unbiased(w, i, baseline);
    if Sum(counts) != 0 && counts[i] == 0 {
      NoShare(Ending(counts, Draws(counts), i, baseline), Sum(counts));
    }
  }

  lemma NoShare(e: nat, s: nat)
    requires e * s == 0 && s != 0
    ensures e == 0
  {}

  lemma {:induction false} SumOfOnes(w: seq<nat>)
    requires forall k :: 0 <= k < |w| ==> w[k] == 1
    ensures Sum(w) == |w|
  {
    if w != [] {
      SumOfOnes(w[..|w| - 1]);
    }
  }
}
