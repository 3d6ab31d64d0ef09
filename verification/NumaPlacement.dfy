/** Greedy placement of threads on nodes: always the node that is least full afterwards.
    Fills are compared as exact fractions. */
module NumaPlacement {
  function Sum(s: seq<nat>): nat {
    if s == [] then 0 else Sum(s[..|s| - 1]) + s[|s| - 1]
  }

  /** a / b <= c / d for positive b and d. */
  predicate AtMost(a: nat, b: nat, c: nat, d: nat) {
    a * d <= c * b
  }

  lemma AtMostTransitive(a: nat, b: nat, c: nat, d: nat, e: nat, f: nat)
    requires d > 0 && AtMost(a, b, c, d) && AtMost(c, d, e, f)
    ensures AtMost(a, b, e, f)
  {
    assert (a * f) * d <= (e * b) * d by {
      Times(a * d, c * b, f);
      Times(c * f, e * d, b);
      assert (a * d) * f == (a * f) * d && (c * b) * f == (c * f) * b && (e * d) * b == (e * b) * d;
    }
    if a * f > e * b {
      Times(e * b + 1, a * f, d);
    }
  }

  lemma Times(x: int, y: int, n: nat)
    requires x <= y
    ensures x * n <= y * n
  {}

  /** How many threads each node has. */
  ghost function Occupation(placed: seq<nat>, nodes: nat): (occ: seq<nat>)
    requires forall t :: 0 <= t < |placed| ==> placed[t] < nodes
    ensures |occ| == nodes
  {
    if placed == [] then seq(nodes, _ => 0)
    else
      var front := Occupation(placed[..|placed| - 1], nodes);
      front[placed[|placed| - 1] := front[placed[|placed| - 1]] + 1]
  }

  /** No used node is fuller than any other node would be with one more thread. */
  ghost predicate Balanced(occ: seq<nat>, size: seq<nat>) {
    && |occ| == |size|
    && forall i, j :: 0 <= i < |occ| && 0 <= j < |occ| && occ[i] > 0 ==> AtMost(occ[i], size[i], occ[j] + 1, size[j])
  }

  /** The node to fill next: the least full afterwards, the first of several. */
  ghost predicate Least(occ: seq<nat>, size: seq<nat>, b: nat, upTo: nat) {
    && b < upTo <= |occ| == |size|
    && (forall j :: 0 <= j < upTo ==> AtMost(occ[b] + 1, size[b], occ[j] + 1, size[j]))
    && (forall j :: 0 <= j < b ==> !AtMost(occ[j] + 1, size[j], occ[b] + 1, size[b]))
  }

  lemma LeastNext(occ: seq<nat>, size: seq<nat>, b: nat, n: nat)
    requires Least(occ, size, b, n) && n < |occ|
    requires forall i :: 0 <= i < |size| ==> size[i] > 0
    ensures Least(occ, size, if AtMost(occ[b] + 1, size[b], occ[n] + 1, size[n]) then b else n, n + 1)
  {
    if !AtMost(occ[b] + 1, size[b], occ[n] + 1, size[n]) {
      forall j | 0 <= j < n
        ensures AtMost(occ[n] + 1, size[n], occ[j] + 1, size[j])
        ensures !AtMost(occ[j] + 1, size[j], occ[n] + 1, size[n])
      {
        assert AtMost(occ[n] + 1, size[n], occ[b] + 1, size[b]);
        AtMostTransitive(occ[n] + 1, size[n], occ[b] + 1, size[b], occ[j] + 1, size[j]);
        if AtMost(occ[j] + 1, size[j], occ[n] + 1, size[n]) {
          AtMostTransitive(occ[b] + 1, size[b], occ[j] + 1, size[j], occ[n] + 1, size[n]);
        }
      }
    }
  }

  method LeastFull(occ: array<nat>, size: seq<nat>) returns (best: nat)
    requires occ.Length == |size| > 0 && forall i :: 0 <= i < |size| ==> size[i] > 0
    ensures Least(occ[..], size, best, |size|)
  {
    best := 0;
    var n := 1;
    hide AtMost;
    LeastFirst(occ[..], size);
    while n < |size|
      invariant 1 <= n <= |size|
      invariant Least(occ[..], size, best, n)
    {
      LeastNext(occ[..], size, best, n);
      if LessFull(occ[n] + 1, size[n], occ[best] + 1, size[best]) {
        best := n;
      }
      n := n + 1;
    }
  }

  lemma LeastFirst(occ: seq<nat>, size: seq<nat>)
    requires |occ| == |size| > 0
    ensures Least(occ, size, 0, 1)
  {}

  predicate LessFull(a: nat, b: nat, c: nat, d: nat)
    ensures LessFull(a, b, c, d) <==> !AtMost(c, d, a, b)
  {
    a * d < c * b
  }

  lemma OneMoreBalanced(occ: seq<nat>, size: seq<nat>, b: nat)
    requires Balanced(occ, size) && Least(occ, size, b, |occ|)
    ensures Balanced(occ[b := occ[b] + 1], size)
  {
    var after := occ[b := occ[b] + 1];
    forall i, j | 0 <= i < |after| && 0 <= j < |after| && after[i] > 0
      ensures AtMost(after[i], size[i], after[j] + 1, size[j])
    {
      if i == b {
        assert AtMost(occ[b] + 1, size[b], occ[j] + 1, size[j]);
      } else {
        assert AtMost(occ[i], size[i], occ[j] + 1, size[j]);
      }
      Times(occ[j] + 1, after[j] + 1, size[i]);
    }
  }

  /** Each thread went to the node least full with it, the first of several. */
  ghost predicate Greedy(placed: seq<nat>, size: seq<nat>) {
    && (forall t :: 0 <= t < |placed| ==> placed[t] < |size|)
    && forall t :: 0 <= t < |placed| ==> Least(Occupation(placed[..t], |size|), size, placed[t], |size|)
  }

  lemma GreedyNext(placed: seq<nat>, size: seq<nat>, best: nat)
    requires Greedy(placed, size) && Least(Occupation(placed, |size|), size, best, |size|)
    ensures Greedy(placed + [best], size)
  {
    hide Least, Occupation;
    var more := placed + [best];
    LeastInside(Occupation(placed, |size|), size, best);
    forall t | 0 <= t < |more|
      ensures Least(Occupation(more[..t], |size|), size, more[t], |size|)
    {
      assert more[..t] == placed[..t];
      assert placed[..|placed|] == placed;
    }
  }

  lemma LeastInside(occ: seq<nat>, size: seq<nat>, b: nat)
    requires Least(occ, size, b, |size|)
    ensures b < |size|
  {}

  /** Every thread is placed by the greedy rule, and the fills end up balanced. With one
      node all go there. */
  method Distribute(size: seq<nat>, threads: nat) returns (placed: seq<nat>)
    requires size != [] && forall i :: 0 <= i < |size| ==> size[i] > 0
    ensures |placed| == threads && forall t :: 0 <= t < threads ==> placed[t] < |size|
    ensures Greedy(placed, size)
    ensures Balanced(Occupation(placed, |size|), size)
    ensures Sum(Occupation(placed, |size|)) == threads
  {
    hide Balanced, Sum, Occupation, Least, Greedy;
    placed := [];
    if |size| == 1 {
      placed := seq(threads, _ => 0);
      AllOnOne(placed);
      OneNodeBalanced(Occupation(placed, 1), size);
      OneNodeGreedy(placed, size);
      return;
    }
    var occ := new nat[|size|](_ => 0);
    assert occ[..] == seq(|size|, _ => 0);
    NothingPlaced(size);
    for t := 0 to threads
      invariant |placed| == t && forall k :: 0 <= k < t ==> placed[k] < |size|
      invariant occ[..] == Occupation(placed, |size|) && Greedy(placed, size)
      invariant Balanced(occ[..], size) && Sum(occ[..]) == t
    {
      var best := PlaceOne(occ, size);
      OccupationNext(placed, best, |size|);
      GreedyNext(placed, size, best);
      placed := placed + [best];
    }
  }

  lemma OccupationNext(placed: seq<nat>, best: nat, nodes: nat)
    requires best < nodes && forall t :: 0 <= t < |placed| ==> placed[t] < nodes
    ensures Occupation(placed + [best], nodes)
         == Occupation(placed, nodes)[best := Occupation(placed, nodes)[best] + 1]
  {
    assert (placed + [best])[..|placed|] == placed;
  }

  /** One thread more, on the node that is least full afterwards. */
  method PlaceOne(occ: array<nat>, size: seq<nat>) returns (best: nat)
    requires occ.Length == |size| > 0 && forall i :: 0 <= i < |size| ==> size[i] > 0
    requires Balanced(occ[..], size)
    modifies occ
    ensures best < |size| && Least(old(occ[..]), size, best, |size|)
    ensures occ[..] == old(occ[..])[best := old(occ[..])[best] + 1]
    ensures Balanced(occ[..], size) && Sum(occ[..]) == Sum(old(occ[..])) + 1
  {
    hide Balanced, Sum;
    best := LeastFull(occ, size);
    OneMoreBalanced(occ[..], size, best);
    SumUpdate(occ[..], best);
    ghost var was := occ[..];
    occ[best] := occ[best] + 1;
    assert occ[..] == was[best := was[best] + 1];
  }

  lemma {:induction false} AllOnOne(placed: seq<nat>)
    requires forall t :: 0 <= t < |placed| ==> placed[t] == 0
    ensures Occupation(placed, 1) == [|placed|] && Sum([|placed|]) == |placed|
  {
    assert [|placed|][..0] == [];
    if placed != [] {
      AllOnOne(placed[..|placed| - 1]);
    }
  }

  lemma NothingPlaced(size: seq<nat>)
    ensures Greedy([], size) && Occupation([], |size|) == seq(|size|, _ => 0)
    ensures Balanced(Occupation([], |size|), size) && Sum(Occupation([], |size|)) == 0
  {
    ZeroSum(Occupation([], |size|));
  }

  lemma OneNodeGreedy(placed: seq<nat>, size: seq<nat>)
    requires |size| == 1 && forall t :: 0 <= t < |placed| ==> placed[t] == 0
    ensures Greedy(placed, size)
  {
    forall t | 0 <= t < |placed|
      ensures Least(Occupation(placed[..t], 1), size, 0, 1)
    {
      LeastFirst(Occupation(placed[..t], 1), size);
    }
  }

  lemma OneNodeBalanced(occ: seq<nat>, size: seq<nat>)
    requires |occ| == |size| == 1
    ensures Balanced(occ, size)
  {
    Times(occ[0], occ[0] + 1, size[0]);
  }

  lemma {:induction false} ZeroSum(s: seq<nat>)
    requires forall i :: 0 <= i < |s| ==> s[i] == 0
    ensures Sum(s) == 0
  {
    if s != [] {
      ZeroSum(s[..|s| - 1]);
    }
  }

  lemma {:induction false} SumUpdate(s: seq<nat>, k: nat)
    requires k < |s|
    ensures Sum(s[k := s[k] + 1]) == Sum(s) + 1
  {
    var n := |s| - 1;
    if k < n {
      SumUpdate(s[..n], k);
      assert s[k := s[k] + 1][..n] == s[..n][k := s[k] + 1];
    } else {
      assert s[k := s[k] + 1][..n] == s[..n];
    }
  }

  /** Somewhere a placement of as many threads has more than `occ`, unless it has as many
      everywhere. */
  lemma {:induction false} MoreSomewhere(occ: seq<nat>, other: seq<nat>, i: nat) returns (j: nat)
    requires |occ| == |other| && i < |occ| && Sum(occ) <= Sum(other) && other[i] < occ[i]
    ensures j < |occ| && other[j] > occ[j]
  {
    if forall k :: 0 <= k < |occ| ==> other[k] <= occ[k] {
      LessSum(other, occ, i);
      assert false;
    }
    j :| 0 <= j < |occ| && other[j] > occ[j];
  }

  lemma {:induction false} AtMostSum(a: seq<nat>, b: seq<nat>)
    requires |a| == |b| && forall k :: 0 <= k < |a| ==> a[k] <= b[k]
    ensures Sum(a) <= Sum(b)
  {
    if a != [] {
      AtMostSum(a[..|a| - 1], b[..|a| - 1]);
    }
  }

  lemma {:induction false} LessSum(a: seq<nat>, b: seq<nat>, i: nat)
    requires |a| == |b| && i < |a| && a[i] < b[i] && forall k :: 0 <= k < |a| ==> a[k] <= b[k]
    ensures Sum(a) < Sum(b)
  {
    var n := |a| - 1;
    if i < n {
      LessSum(a[..n], b[..n], i);
    } else {
      AtMostSum(a[..n], b[..n]);
    }
  }

  /** A balanced placement has the lowest possible maximum: no placement of as many threads
      keeps every node less full than the fullest node here. */
  lemma BalancedIsOptimal(occ: seq<nat>, other: seq<nat>, size: seq<nat>, i: nat) returns (j: nat)
    requires Balanced(occ, size) && |other| == |occ| && Sum(other) == Sum(occ) && i < |occ|
    ensures j < |occ| && AtMost(occ[i], size[i], other[j], size[j])
  {
    j := i;
    if other[i] >= occ[i] {
      Times(occ[i], other[i], size[i]);
    } else {
      j := MoreSomewhere(occ, other, i);
      assert AtMost(occ[i], size[i], occ[j] + 1, size[j]);
      Times(occ[j] + 1, other[j], size[i]);
    }
  }
}
